/**
  The snapshot worker: archive the root disk of a VM, running or stopped, through temporary block views.

  While the VM runs its guest keeps writing to the disk, between any two steps and between any two block
  reads. The stable parent view is a classic copy-on-write snapshot: before a block of the live disk is
  overwritten for the first time its old value is saved, and the view reads the saved value. If the saved
  blocks outgrow their store the view turns invalid, for good, and reads of it may return anything. The
  private child is a second such layer over the parent that alone takes the sanitising writes.
*/
module Snapshot {
  import opened Wrappers

  type Block = int
  type Content = seq<Block>

  datatype Policy = PreserveIpv4 | RegenerateIpv4

  /** What the archive's root-disk payload is read from. */
  datatype Source = Root | Parent | Child | Copy

  datatype Event =
    | DropChild(ok: bool) | DropCopy(ok: bool) | DropView(ok: bool)
    | Checked(cancelled: bool) | Publish(ok: bool)

  datatype Error = Refused | CaptureFailed | CleanupFailed | Cancelled | NotPublished

  datatype Support = Made | Unsupported | Failed

  /** `base` with the blocks of `over` laid over it. */
  function Overlay(base: Content, over: map<nat, Block>): Content {
    seq(|base|, i requires 0 <= i < |base| => if i in over then over[i] else base[i])
  }

  /** A content with one block replaced. */
  function Written(base: Content, at: nat, block: Block): Content
    requires at < |base|
  {
    base[at := block]
  }

  /** The live disk after a sequence of guest writes. */
  function Replay(base: Content, writes: seq<(nat, Block)>): (r: Content)
    ensures |r| == |base|
  {
    if writes == [] then base
    else
      var before := Replay(base, writes[..|writes| - 1]);
      var (at, block) := writes[|writes| - 1];
      if at < |before| then Written(before, at, block) else before
  }

  /** The copy-on-write law: saving the old block first keeps the view what it was. */
  lemma CopyOnWriteKeepsView(live: Content, saved: map<nat, Block>, at: nat, block: Block)
    requires at < |live|
    ensures Overlay(Written(live, at, block), if at in saved then saved else saved[at := live[at]])
            == Overlay(live, saved)
  {
    var after := Written(live, at, block);
    var saved' := if at in saved then saved else saved[at := live[at]];
    forall i | 0 <= i < |live| ensures Overlay(after, saved')[i] == Overlay(live, saved)[i] {
    }
  }

  /** Sanitising is a set of block edits computed from the content it finds. */
  function Sanitised(content: Content, edits: Content -> map<nat, Block>): Content {
    Overlay(content, edits(content))
  }

  class Machine {
    const running: bool
    const edits: Content -> map<nat, Block>
    var live: Content
    var saved: Option<map<nat, Block>>   // the parent view's store, while the view is attached
    var valid: bool                      // the store has not overflowed
    var child: Option<map<nat, Block>>   // the private child's store, while the child is attached
    var childValid: bool
    var copy: Option<Content>            // the private full copy
    var published: Option<Content>
    var log: seq<Event>
    ghost var faults: nat                // how many operations failed or were interrupted so far
    ghost var nested: Option<Support>    // how the last attempt at a private child ended
    ghost var frozen: Content            // the live disk at the instant the view was attached
    ghost var writes: seq<(nat, Block)>  // every guest write so far
    ghost var attachedAt: nat            // how many of them preceded that instant
    ghost const original: Content

    constructor (running: bool, live: Content, edits: Content -> map<nat, Block>)
      ensures this.running == running && this.live == live && this.edits == edits
      ensures Sound() && saved.None? && child.None? && copy.None? && published.None? && log == []
      ensures original == live && writes == [] && attachedAt == 0
    {
      this.running, this.live, this.edits := running, live, edits;
      saved, valid, child, childValid, copy, published, log := None, false, None, false, None, None, [];
      frozen, writes, attachedAt, original, faults, nested := live, [], 0, live, 0, None;
    }

    /**
      The live disk is exactly what the guest wrote, a valid attached view still shows the disk as it was
      when attached, and a stopped guest writes nothing.
    */
    ghost predicate Sound()
      reads this
    {
      && live == Replay(original, writes)
      && (!running ==> writes == [])
      && attachedAt <= |writes|
      && frozen == Replay(original, writes[..attachedAt])
      && (saved.Some? && valid ==> Overlay(live, saved.value) == frozen)
    }

    /** The guest writes as it likes, and the stores may overflow. */
    method Elapse()
      requires Sound()
      modifies this`live, this`saved, this`valid, this`childValid, this`writes
      ensures Sound()
      ensures saved.Some? <==> old(saved).Some?
      ensures valid ==> old(valid)
      ensures childValid ==> old(childValid)
      ensures !running ==> live == old(live)
      ensures |live| == |old(live)|
      ensures old(writes) <= writes
    {
      if !running {
        return;
      }
      var overflows: bool := *;
      childValid := childValid && !overflows;
      var count: int := *;
      for k := 0 to if count < 0 then 0 else count
        invariant Sound()
        invariant childValid ==> old(childValid)
        invariant saved.Some? <==> old(saved).Some?
        invariant valid ==> old(valid)
        invariant |live| == |old(live)|
        invariant old(writes) <= writes
      {
        GuestWrite();
      }
    }

    /** One write of the guest, copied on write while a view is attached. */
    method GuestWrite()
      requires Sound() && running
      modifies this`live, this`saved, this`valid, this`writes
      ensures Sound()
      ensures saved.Some? <==> old(saved).Some?
      ensures valid ==> old(valid)
      ensures |live| == |old(live)|
      ensures old(writes) <= writes
    {
      var at: nat, block: Block, full: bool := *, *, *;
      if at >= |live| {
        return;
      }
      if saved.Some? {
        CopyOnWriteKeepsView(live, saved.value, at, block);
        if at !in saved.value {
          if full {
            valid := false;
          } else {
            saved := Some(saved.value[at := live[at]]);
          }
        }
      }
      live := live[at := block];
      ghost var before := writes;
      writes := writes + [(at, block)];
      assert writes[..|writes| - 1] == before && writes[..attachedAt] == before[..attachedAt];
    }

    /** `create_snapshot_view`. */
    method AttachView() returns (ok: bool)
      requires Sound() && saved.None?
      modifies this`live, this`saved, this`valid, this`childValid, this`writes, this`frozen, this`attachedAt
      modifies this`faults
      ensures Sound()
      ensures ok ==> saved.Some?
      ensures !ok ==> saved.None?
      ensures if ok then frozen == live && attachedAt == |writes| else frozen == old(frozen)
      ensures !running ==> live == old(live)
      ensures |live| == |old(live)|
      ensures old(writes) <= writes
      ensures faults == old(faults) + if ok then 0 else 1
    {
      Elapse();
      ok := *;
      if !ok { faults := faults + 1; }
      if ok {
        saved, valid, frozen, attachedAt := Some(map[]), true, live, |writes|;
        assert writes[..attachedAt] == writes;
      }
    }

    /** `create_private_snapshot_view`. */
    method AttachChild() returns (support: Support)
      requires Sound() && saved.Some? && child.None?
      modifies this`live, this`saved, this`valid, this`childValid, this`child, this`writes, this`faults, this`nested
      ensures Sound() && saved.Some?
      ensures valid ==> old(valid)
      ensures child == if support == Made then Some(map[]) else None
      ensures |live| == |old(live)|
      ensures faults == old(faults) + if support == Failed then 1 else 0
      ensures nested == Some(support)
    {
      Elapse();
      support := *;
      nested := Some(support);
      if support == Failed { faults := faults + 1; }
      if support == Made {
        child, childValid := Some(map[]), true;
      }
    }

    /** What a source holds, as long as it can be trusted. */
    ghost function Shows(source: Source): Content
      requires source == Child ==> child.Some?
      requires source == Copy ==> copy.Some?
      reads this
    {
      match source
      case Root => live
      case Parent => frozen
      case Child => Overlay(frozen, child.value)
      case Copy => copy.value
    }

    ghost predicate Trusted(source: Source)
      reads this
    {
      && (source.Root? ==> !running)
      && (source.Parent? || source.Child? ==> saved.Some? && valid)
      && (source.Child? ==> childValid)
    }

    ghost predicate Available(source: Source)
      reads this
    {
      && (source.Parent? ==> saved.Some?)
      && (source.Child? ==> saved.Some? && child.Some?)
      && (source.Copy? ==> copy.Some?)
    }

    /** Read one block; an invalid view may return anything. */
    method Read(source: Source, at: nat) returns (block: Block)
      requires Sound() && Available(source)
      requires source == Copy ==> at < |copy.value|
      requires source != Copy ==> at < |live|
      modifies this`live, this`saved, this`valid, this`childValid, this`writes
      ensures Sound() && Available(source)
      ensures saved.Some? <==> old(saved).Some?
      ensures valid ==> old(valid)
      ensures childValid ==> old(childValid)
      ensures !running ==> live == old(live)
      ensures |live| == |old(live)|
      ensures Trusted(source) ==> at < |Shows(source)| && block == Shows(source)[at]
    {
      Elapse();
      block := *;
      match source {
        case Root => block := live[at];
        case Parent => if valid { block := Overlay(live, saved.value)[at]; }
        case Child =>
          if valid && childValid { block := Overlay(Overlay(live, saved.value), child.value)[at]; }
        case Copy => block := copy.value[at];
      }
    }

    /** `check_snapshot_view`. */
    method CheckView() returns (ok: bool)
      requires Sound() && saved.Some?
      modifies this`live, this`saved, this`valid, this`childValid, this`writes, this`faults
      ensures Sound() && saved.Some?
      ensures valid ==> old(valid)
      ensures childValid ==> old(childValid)
      ensures |live| == |old(live)|
      ensures ok ==> valid
      ensures faults >= old(faults) && (!ok ==> faults > old(faults) || !valid)
    {
      Elapse();
      ok := *;
      if !ok { faults := faults + 1; }
      ok := ok && valid;
    }

    /** `check_private_snapshot_view`. */
    method CheckChild() returns (ok: bool)
      requires Sound() && saved.Some? && child.Some?
      modifies this`live, this`saved, this`valid, this`childValid, this`writes, this`faults
      ensures Sound() && saved.Some?
      ensures valid ==> old(valid)
      ensures childValid ==> old(childValid)
      ensures |live| == |old(live)|
      ensures ok ==> childValid
      ensures faults >= old(faults) && (!ok ==> faults > old(faults) || !childValid)
    {
      Elapse();
      ok := *;
      if !ok { faults := faults + 1; }
      ok := ok && childValid;
    }

    /** `prepare_private_snapshot_view` on the child: every edit goes to the child's own store. */
    method SanitiseChild() returns (ok: bool)
      requires Sound() && saved.Some? && child == Some(map[])
      modifies this`live, this`saved, this`valid, this`childValid, this`child, this`writes, this`faults
      ensures Sound() && saved.Some? && child.Some?
      ensures valid ==> old(valid)
      ensures |live| == |old(live)|
      ensures ok && valid && childValid ==> Overlay(frozen, child.value) == Sanitised(frozen, edits)
      ensures faults == old(faults) + if ok then 0 else 1
    {
      Elapse();
      ok := *;
      if !ok { faults := faults + 1; }
      var found := Overlay(Overlay(live, saved.value), child.value);
      child := Some(child.value + edits(found));
      assert valid ==> found == frozen;
      assert valid ==> child.value == edits(frozen);
    }

    /** `prepare_private_snapshot_view` on the private copy. */
    method SanitiseCopy() returns (ok: bool)
      requires Sound() && copy.Some?
      modifies this`live, this`saved, this`valid, this`childValid, this`copy, this`writes, this`faults
      ensures Sound() && (saved.Some? <==> old(saved).Some?) && copy.Some?
      ensures valid ==> old(valid)
      ensures !running ==> live == old(live)
      ensures |live| == |old(live)|
      ensures ok ==> copy.value == Sanitised(old(copy.value), edits)
      ensures faults == old(faults) + if ok then 0 else 1
    {
      Elapse();
      ok := *;
      if !ok { faults := faults + 1; }
      copy := Some(Overlay(copy.value, edits(copy.value)));
    }

    /** `remove_private_snapshot_view`, `remove_file` of the copy, `remove_snapshot_view`. */
    method DetachChild() returns (ok: bool)
      requires Sound()
      modifies this
      ensures Sound()
      ensures child == if ok then None else old(child)
      ensures (saved.Some? <==> old(saved).Some?) && copy == old(copy) && published == old(published)
      ensures frozen == old(frozen) && attachedAt == old(attachedAt) && log == old(log) + [DropChild(ok)]
      ensures !running ==> live == old(live)
      ensures (valid ==> old(valid)) && (childValid ==> old(childValid)) && faults >= old(faults)
      ensures nested == old(nested)
    {
      Elapse();
      ok := *;
      if !ok { faults := faults + 1; }
      if ok {
        child := None;
      }
      log := log + [DropChild(ok)];
    }

    method RemoveCopy() returns (ok: bool)
      requires Sound()
      modifies this
      ensures Sound()
      ensures copy == if ok then None else old(copy)
      ensures (saved.Some? <==> old(saved).Some?) && child == old(child) && published == old(published)
      ensures frozen == old(frozen) && attachedAt == old(attachedAt) && log == old(log) + [DropCopy(ok)]
      ensures !running ==> live == old(live)
      ensures (valid ==> old(valid)) && (childValid ==> old(childValid)) && faults >= old(faults)
      ensures nested == old(nested)
    {
      Elapse();
      ok := *;
      if !ok { faults := faults + 1; }
      if ok {
        copy := None;
      }
      log := log + [DropCopy(ok)];
    }

    method DetachView() returns (ok: bool)
      requires Sound()
      modifies this
      ensures Sound()
      ensures ok ==> saved.None?
      ensures !ok ==> (saved.Some? <==> old(saved).Some?)
      ensures child == old(child) && copy == old(copy) && published == old(published)
      ensures frozen == old(frozen) && attachedAt == old(attachedAt) && log == old(log) + [DropView(ok)]
      ensures !running ==> live == old(live)
      ensures (valid ==> old(valid)) && (childValid ==> old(childValid)) && faults >= old(faults)
      ensures nested == old(nested)
    {
      Elapse();
      ok := *;
      if !ok { faults := faults + 1; }
      if ok {
        saved := None;
      }
      log := log + [DropView(ok)];
    }

    /** The cancellation token, read once. */
    method IsCancelled() returns (cancelled: bool)
      requires Sound()
      modifies this
      ensures Sound()
      ensures child == old(child) && copy == old(copy) && published == old(published)
      ensures saved.Some? <==> old(saved).Some?
      ensures frozen == old(frozen) && attachedAt == old(attachedAt) && log == old(log) + [Checked(cancelled)]
      ensures !running ==> live == old(live)
      ensures (valid ==> old(valid)) && (childValid ==> old(childValid)) && faults >= old(faults)
      ensures nested == old(nested)
    {
      Elapse();
      cancelled := *;
      log := log + [Checked(cancelled)];
    }

    /** `publish_staged_archive`: a failure may leave the output in place if removing it fails as well. */
    method PublishStaged(content: Content) returns (ok: bool)
      requires Sound()
      modifies this
      ensures Sound()
      ensures ok ==> published == Some(content)
      ensures !ok ==> published in {old(published), Some(content)}
      ensures (saved.Some? <==> old(saved).Some?) && child == old(child) && copy == old(copy)
      ensures frozen == old(frozen) && attachedAt == old(attachedAt) && log == old(log) + [Publish(ok)]
      ensures !running ==> live == old(live)
      ensures (valid ==> old(valid)) && (childValid ==> old(childValid)) && faults >= old(faults)
      ensures nested == old(nested)
    {
      Elapse();
      ok := *;
      if !ok { faults := faults + 1; }
      var leftover: bool := *;
      if ok || leftover {
        published := Some(content);
      }
      log := log + [Publish(ok)];
    }
  }

  /** Read a source block by block while the guest keeps writing; any read may fail or be cancelled. */
  method Stream(m: Machine, source: Source, size: nat) returns (r: Option<Content>)
    requires m.Sound() && m.Available(source)
    requires size == if source == Copy then |m.copy.value| else |m.live|
    modifies m`live, m`saved, m`valid, m`childValid, m`writes, m`faults
    ensures m.Sound() && m.Available(source)
    ensures m.saved.Some? <==> old(m.saved).Some?
    ensures m.valid ==> old(m.valid)
    ensures m.childValid ==> old(m.childValid)
    ensures |m.live| == |old(m.live)| && (!m.running ==> m.live == old(m.live))
    ensures r.Some? ==> |r.value| == size && (m.Trusted(source) ==> r.value == m.Shows(source))
    ensures m.faults == old(m.faults) + if r.Some? then 0 else 1
  {
    var content, complete := StreamBlocks(m, source, size);
    if complete {
      return Some(content);
    }
    m.faults := m.faults + 1;
    return None;
  }

  lemma PrefixGrows(content: Content, shown: Content, block: Block)
    requires content <= shown && |content| < |shown| && block == shown[|content|]
    ensures content + [block] <= shown
  {
  }

  /** One more block. */
  method ReadNext(m: Machine, source: Source, content: Content) returns (more: Content)
    requires m.Sound() && m.Available(source)
    requires |content| < if source == Copy then |m.copy.value| else |m.live|
    requires m.Trusted(source) ==> content <= m.Shows(source)
    modifies m`live, m`saved, m`valid, m`childValid, m`writes
    ensures m.Sound() && m.Available(source)
    ensures m.saved.Some? <==> old(m.saved).Some?
    ensures m.valid ==> old(m.valid)
    ensures m.childValid ==> old(m.childValid)
    ensures |m.live| == |old(m.live)| && (!m.running ==> m.live == old(m.live))
    ensures |more| == |content| + 1 && (m.Trusted(source) ==> more <= m.Shows(source))
  {
    ghost var shown := m.Shows(source);
    var block := m.Read(source, |content|);
    more := content + [block];
    if m.Trusted(source) {
      assert m.Shows(source) == shown;
      PrefixGrows(content, shown, block);
    }
  }

  /** The loop: as many blocks as it got before it was stopped. */
  method StreamBlocks(m: Machine, source: Source, size: nat) returns (content: Content, complete: bool)
    requires m.Sound() && m.Available(source)
    requires size == if source == Copy then |m.copy.value| else |m.live|
    modifies m`live, m`saved, m`valid, m`childValid, m`writes
    ensures m.Sound() && m.Available(source)
    ensures m.saved.Some? <==> old(m.saved).Some?
    ensures m.valid ==> old(m.valid)
    ensures m.childValid ==> old(m.childValid)
    ensures |m.live| == |old(m.live)| && (!m.running ==> m.live == old(m.live))
    ensures complete ==> |content| == size && (m.Trusted(source) ==> content == m.Shows(source))
  {
    content, complete := [], true;
    while |content| < size && complete
      invariant |content| <= size && |m.live| == |old(m.live)|
      invariant m.Sound() && m.Available(source)
      invariant m.saved.Some? <==> old(m.saved).Some?
      invariant m.valid ==> old(m.valid)
      invariant m.childValid ==> old(m.childValid)
      invariant !m.running ==> m.live == old(m.live)
      invariant m.Trusted(source) ==> content <= m.Shows(source)
      decreases size - |content|, complete
    {
      content := ReadNext(m, source, content);
      complete := *;
    }
    complete := complete && |content| == size;
  }

  /** `copy_rootfs_exact`; removing a partial copy may itself fail and leave it behind. */
  method CopyExact(m: Machine, source: Source, size: nat) returns (ok: bool)
    requires m.Sound() && m.copy.None? && size == |m.live|
    requires source in {Root, Parent} && m.Available(source)
    modifies m`live, m`saved, m`valid, m`childValid, m`writes, m`copy, m`faults
    ensures m.Sound() && m.Available(source)
    ensures m.valid ==> old(m.valid)
    ensures m.saved.Some? <==> old(m.saved).Some?
    ensures |m.live| == |old(m.live)| && (!m.running ==> m.live == old(m.live))
    ensures ok ==> m.copy.Some? && |m.copy.value| == size && (m.Trusted(source) ==> m.copy.value == m.Shows(source))
    ensures m.faults >= old(m.faults) && (!ok ==> m.faults > old(m.faults) || size == 0)
    ensures size == 0 ==> !ok
  {
    if size == 0 {
      return false;
    }
    var content := Stream(m, source, size);
    var partial: Option<Content> := *;
    m.copy := if content.Some? then content else partial;
    return content.Some?;
  }

  /** The root-disk part of `create_archive_with_progress`: stream, then check the views once more. */
  method Archive(m: Machine, source: Source, size: nat) returns (r: Option<Content>)
    requires m.Sound() && m.Available(source)
    requires size == |m.live| && (source == Copy ==> |m.copy.value| == size)
    requires m.running <==> m.saved.Some?
    requires source == Root ==> !m.running
    modifies m`live, m`saved, m`valid, m`childValid, m`writes, m`faults
    ensures m.Sound() && m.Available(source)
    ensures m.saved.Some? <==> old(m.saved).Some?
    ensures !m.running ==> m.live == old(m.live)
    ensures r.Some? ==> r.value == m.Shows(source)
    ensures r.Some? && m.running ==> old(m.valid)
    ensures r.Some? && source == Child ==> old(m.childValid)
    ensures m.faults >= old(m.faults)
    ensures (m.valid ==> old(m.valid)) && (m.childValid ==> old(m.childValid))
    ensures r.None? ==> m.faults > old(m.faults) || (m.running && !m.valid) || (source == Child && !m.childValid)
  {
    var content := Stream(m, source, size);
    ghost var intact := m.Trusted(source);
    if content.None? {
      return None;
    }
    if m.running {
      var fine := m.CheckView();
      if !fine {
        return None;
      }
      if source == Child {
        fine := m.CheckChild();
        if !fine {
          return None;
        }
      }
    }
    assert intact;
    return content;
  }

  /** What the capture acquired and must give back. */
  datatype Acquired = Acquired(view: bool, child: bool, copy: bool)

  /** The disk to be archived: a running VM's as its view found it, a stopped VM's as it lies. */
  ghost function Captured(m: Machine): Content
    reads m
  {
    if m.running then m.frozen else m.live
  }

  /** The private source a RegenerateIpv4 capture sanitises: a child of the parent view, or a full copy. */
  method PreparePrivate(m: Machine, size: nat) returns (source: Option<Source>, acquired: Acquired)
    requires m.Sound() && m.child.None? && m.copy.None? && size == |m.live|
    requires m.running <==> m.saved.Some?
    modifies m
    ensures m.Sound() && |m.live| == |old(m.live)| && (!m.running ==> m.live == old(m.live))
    ensures m.frozen == old(m.frozen) && m.attachedAt == old(m.attachedAt)
    ensures m.published == old(m.published) && m.log == old(m.log)
    ensures m.saved.Some? <==> old(m.saved).Some?
    ensures acquired.view <==> m.saved.Some?
    ensures acquired.child <==> m.child.Some?
    ensures acquired.copy ==> m.copy.Some?
    ensures source.Some? && !acquired.copy ==> m.copy.None?
    ensures source.Some? ==> source.value in {Child, Copy} && m.Available(source.value)
    ensures source == Some(Child) ==>
              && m.copy.None?
              && (m.valid && m.childValid ==> m.Shows(Child) == Sanitised(m.frozen, m.edits))
    ensures source == Some(Copy) ==>
              && acquired.copy && |m.copy.value| == size
              && (m.running && m.valid ==> m.Shows(Copy) == Sanitised(m.frozen, m.edits))
              && (!m.running ==> m.Shows(Copy) == Sanitised(m.live, m.edits))
    ensures m.faults >= old(m.faults)
    ensures source.None? ==> m.faults > old(m.faults) || size == 0
    ensures source == Some(Copy) && m.running ==> m.nested == Some(Unsupported)
    ensures old(m.nested) == None && m.nested == Some(Failed) ==> source.None?
  {
    acquired := Acquired(m.saved.Some?, false, false);
    var stable := if m.saved.Some? then Parent else Root;
    if m.saved.Some? {
      var support := m.AttachChild();
      if support == Made {
        acquired := acquired.(child := true);
        var sanitised := m.SanitiseChild();
        return if sanitised then Some(Child) else None, acquired;
      }
      if support == Failed {
        return None, acquired;
      }
    }
    var copied := CopyExact(m, stable, size);
    if !copied {
      return None, acquired;
    }
    acquired := acquired.(copy := true);
    var sanitised := m.SanitiseCopy();
    return if sanitised then Some(Copy) else None, acquired;
  }

  /** A capture that no operation's failure explains: an empty disk, or a view that was lost. */
  ghost predicate Spoiled(m: Machine, acquired: Acquired, size: nat)
    reads m
  {
    size == 0 || (m.running && !m.valid) || (acquired.child && !m.childValid)
  }

  /** The capture closure of the worker. */
  method Capture(m: Machine, policy: Policy, size: nat) returns (r: Option<Content>, acquired: Acquired)
    requires m.Sound() && m.saved.None? && m.child.None? && m.copy.None? && size == |m.live|
    modifies m
    ensures m.Sound() && (!m.running ==> m.live == old(m.live))
    ensures m.published == old(m.published) && m.log == old(m.log)
    ensures acquired.view <==> m.saved.Some?
    ensures acquired.child <==> m.child.Some?
    ensures acquired.copy ==> m.copy.Some?
    ensures r.Some? ==>
              && (acquired.copy <==> m.copy.Some?)
              && (m.running ==> acquired.view && m.attachedAt >= |old(m.writes)|)
              && r.value == (if policy == RegenerateIpv4 then Sanitised(Captured(m), m.edits) else Captured(m))
    ensures m.faults >= old(m.faults)
    ensures r.None? ==> m.faults > old(m.faults) || Spoiled(m, acquired, size)
    ensures m.running && acquired.copy && r.Some? ==> m.nested == Some(Unsupported)
  {
    acquired := Acquired(false, false, false);
    if m.running {
      var attached := m.AttachView();
      if !attached {
        return None, acquired;
      }
      acquired := Acquired(true, false, false);
    }
    var source := if m.running then Parent else Root;
    if policy == RegenerateIpv4 {
      var private;
      private, acquired := PreparePrivate(m, size);
      if private.None? {
        return None, acquired;
      }
      source := private.value;
    }
    r := Archive(m, source, size);
  }

  ghost predicate Succeeded(e: Event) {
    match e
    case DropChild(ok) => ok
    case DropCopy(ok) => ok
    case DropView(ok) => ok
    case _ => true
  }

  /** The removal attempts of `l`, in order: the child before its parent, the copy between them. */
  ghost predicate AttemptsAll(l: seq<Event>, acquired: Acquired) {
    var c := if acquired.child then 1 else 0;
    var p := if acquired.copy then 1 else 0;
    && |l| == c + p + (if acquired.view then 1 else 0)
    && (acquired.child ==> l[0].DropChild?)
    && (acquired.copy ==> l[c].DropCopy?)
    && (acquired.view ==> l[c + p].DropView?)
  }

  /** Give back everything acquired, whatever fails on the way. */
  method Cleanup(m: Machine, acquired: Acquired) returns (clean: bool, ghost attempts: seq<Event>)
    requires m.Sound()
    requires (acquired.view <==> m.saved.Some?) && (acquired.child <==> m.child.Some?)
    modifies m
    ensures m.Sound() && (!m.running ==> m.live == old(m.live))
    ensures m.frozen == old(m.frozen) && m.attachedAt == old(m.attachedAt) && m.published == old(m.published)
    ensures m.log == old(m.log) + attempts && AttemptsAll(attempts, acquired)
    ensures clean ==> m.saved.None? && m.child.None? && (acquired.copy ==> m.copy.None?)
    ensures !acquired.copy ==> m.copy == old(m.copy)
    ensures (m.valid ==> old(m.valid)) && (m.childValid ==> old(m.childValid)) && m.faults >= old(m.faults)
    ensures clean <==> forall i | 0 <= i < |attempts| :: Succeeded(attempts[i])
    ensures m.nested == old(m.nested)
  {
    clean, attempts := true, [];
    if acquired.child {
      var ok := m.DetachChild();
      clean, attempts := clean && ok, attempts + [DropChild(ok)];
    }
    if acquired.copy {
      var ok := m.RemoveCopy();
      clean, attempts := clean && ok, attempts + [DropCopy(ok)];
    }
    if acquired.view {
      var ok := m.DetachView();
      clean, attempts := clean && ok, attempts + [DropView(ok)];
    }
  }

  /** Publish the staged archive unless the last look at the token finds the call cancelled. */
  method PublishUnlessCancelled(m: Machine, content: Content)
    returns (r: Result<Content, Error>, ghost tail: seq<Event>)
    requires m.Sound() && m.published.None?
    modifies m
    ensures m.Sound() && (!m.running ==> m.live == old(m.live))
    ensures m.frozen == old(m.frozen) && m.attachedAt == old(m.attachedAt)
    ensures m.child == old(m.child) && m.copy == old(m.copy) && (m.saved.Some? <==> old(m.saved).Some?)
    ensures m.log == old(m.log) + tail
    ensures tail in {[Checked(true)], [Checked(false), Publish(true)], [Checked(false), Publish(false)]}
    ensures m.published in {None, Some(content)}
    ensures r.Ok? ==> r.value == content && tail == [Checked(false), Publish(true)]
    ensures tail == [Checked(true)] ==> m.published.None?
    ensures tail == [Checked(false), Publish(true)] ==> r == Ok(content) && m.published == Some(content)
    ensures (m.valid ==> old(m.valid)) && (m.childValid ==> old(m.childValid)) && m.faults >= old(m.faults)
    ensures r == Err(Cancelled) ==> tail == [Checked(true)]
    ensures r == Err(NotPublished) ==> tail == [Checked(false), Publish(false)]
    ensures r.Err? ==> r.error in {Cancelled, NotPublished}
    ensures m.nested == old(m.nested)
  {
    var cancelled := m.IsCancelled();
    if cancelled {
      return Err(Cancelled), [Checked(true)];
    }
    var ok := m.PublishStaged(content);
    return if ok then Ok(content) else Err(NotPublished), [Checked(false), Publish(ok)];
  }

  /**
    The main theorem on snapshots; `early` says that cancellation is set before anything is done. Whatever the guest
    writes and whatever fails: an archive that is published holds the disk exactly as it was at one instant of this
    call (sanitised exactly under RegenerateIpv4), after every temporary resource was removed and the last look at
    the token found no cancellation; every resource acquired gets its removal attempt, the child before its parent;
    the live disk is, throughout, what the guest alone made of it; and no error comes without its reason.
  */
  method CreateSnapshot(m: Machine, policy: Policy, size: nat, early: bool)
    returns (r: Result<Content, Error>, ghost acquired: Acquired, ghost attempts: seq<Event>, ghost tail: seq<Event>)
    requires m.Sound() && m.saved.None? && m.child.None? && m.copy.None? && m.published.None?
    modifies m
    ensures m.live == Replay(m.original, m.writes) && (!m.running ==> m.live == old(m.live))
    ensures r.Ok? ==> m.published == Some(r.value)
    ensures m.published.Some? ==>
              && m.saved.None? && m.child.None? && m.copy.None?
              && m.published.value ==
                 (if policy == RegenerateIpv4 then Sanitised(Captured(m), m.edits) else Captured(m))
    ensures m.published.Some? && m.running ==>
              && |old(m.writes)| <= m.attachedAt <= |m.writes|
              && m.frozen == Replay(m.original, m.writes[..m.attachedAt])
    ensures m.log == old(m.log) + attempts + tail && AttemptsAll(attempts, acquired)
    ensures tail in {[], [Checked(true)], [Checked(false), Publish(true)], [Checked(false), Publish(false)]}
    ensures m.published.Some? ==> tail != [] && tail[0] == Checked(false)
    ensures r.Err? ==>
      match r.error
      case Refused => size != |old(m.live)|
      case CaptureFailed => m.faults > old(m.faults) || Spoiled(m, acquired, size)
      case CleanupFailed => exists i | 0 <= i < |attempts| :: !Succeeded(attempts[i])
      case Cancelled => early || tail == [Checked(true)]
      case NotPublished => tail == [Checked(false), Publish(false)]
    ensures early ==> r == Err(Cancelled) && acquired == Acquired(false, false, false) && tail == []
    ensures m.published.Some? && m.running && acquired.copy ==> m.nested == Some(Unsupported)
  {
    acquired, attempts, tail := Acquired(false, false, false), [], [];
    if early || size != |m.live| {
      return Err(if early then Cancelled else Refused), acquired, attempts, tail;
    }
    var captured, held := Capture(m, policy, size);
    acquired := held;
    var clean;
    clean, attempts := Cleanup(m, held);
    if captured.None? || !clean {
      return Err(if captured.None? then CaptureFailed else CleanupFailed), acquired, attempts, tail;
    }
    r, tail := PublishUnlessCancelled(m, captured.value);
  }
}

/** Artifact keys: how a download row names its artifact, and how prune recovers the name from an orphan row. */
module Keys {
  import opened Wrappers

  datatype Artifact = KernelId(id: string) | ImageId(pair: (string, string))

  const KERNEL_PREFIX := "kernel:"
  const IMAGE_PREFIX := "distribution_image:"

  /** The key that downloads and prune give an artifact. */
  function KeyOf(a: Artifact): string {
    match a
    case KernelId(id) => KERNEL_PREFIX + id
    case ImageId(pair) => IMAGE_PREFIX + (pair.0 + ":" + pair.1)
  }

  /** The recorded artifact type. */
  datatype ArtifactType = KernelType | ImageType | OtherType

  function TypeOf(a: Artifact): ArtifactType {
    if a.KernelId? then KernelType else ImageType
  }

  function StripPrefix(s: string, prefix: string): Option<string> {
    if prefix <= s then Some(s[|prefix|..]) else None
  }

  /** `split_once(':')`. */
  function SplitOnce(s: string): Option<(string, string)> {
    if s == "" then None
    else if s[0] == ':' then Some(("", s[1..]))
    else match SplitOnce(s[1..])
      case None => None
      case Some(halves) => Some(([s[0]] + halves.0, halves.1))
  }

  /** `parse_identity`. */
  function ParseIdentity(artifactType: ArtifactType, key: string): Option<Artifact> {
    match artifactType
    case KernelType =>
      (match StripPrefix(key, KERNEL_PREFIX)
       case None => None
       case Some(id) => if id == "" then None else Some(KernelId(id)))
    case ImageType =>
      (match StripPrefix(key, IMAGE_PREFIX)
       case None => None
       case Some(rest) =>
         match SplitOnce(rest)
         case None => None
         case Some(halves) => if halves.0 == "" || halves.1 == "" then None else Some(ImageId(halves)))
    case OtherType => None
  }

  /** The first half has no separator, and the halves put together again are the whole. */
  lemma {:induction false} SplitOnceMeans(s: string)
    ensures SplitOnce(s).None? <==> ':' !in s
    ensures SplitOnce(s).Some? ==>
      var halves := SplitOnce(s).value;
      ':' !in halves.0 && s == halves.0 + ":" + halves.1
  {
    if s != "" && s[0] != ':' {
      SplitOnceMeans(s[1..]);
      assert s == [s[0]] + s[1..];
    } else if s != "" {
      assert s == "" + ":" + s[1..];
    }
  }

  lemma {:induction false} SplitOnceJoins(a: string, b: string)
    requires ':' !in a
    ensures SplitOnce(a + ":" + b) == Some((a, b))
  {
    var s := a + ":" + b;
    if a != "" {
      SplitOnceJoins(a[1..], b);
      assert s[1..] == a[1..] + ":" + b;
      assert a == [a[0]] + a[1..];
    } else {
      assert s[1..] == b;
    }
  }

  lemma StripPrefixUndoes(prefix: string, rest: string)
    ensures StripPrefix(prefix + rest, prefix) == Some(rest)
  {
    assert (prefix + rest)[|prefix|..] == rest;
  }

  predicate Nameable(a: Artifact) {
    match a
    case KernelId(id) => id != ""
    case ImageId(pair) => pair.0 != "" && pair.1 != "" && ':' !in pair.0
  }

  /**
    Prune recovers the artifact from its key exactly when no name is empty and the distribution's has no colon:
    any other image is taken for a different one, or for none.
  */
  lemma ParseInvertsKey(a: Artifact)
    ensures ParseIdentity(TypeOf(a), KeyOf(a)) == Some(a) <==> Nameable(a)
  {
    match a
    case KernelId(id) => StripPrefixUndoes(KERNEL_PREFIX, id);
    case ImageId(pair) =>
      var rest := pair.0 + ":" + pair.1;
      StripPrefixUndoes(IMAGE_PREFIX, rest);
      SplitOnceMeans(rest);
      if ':' !in pair.0 {
        SplitOnceJoins(pair.0, pair.1);
      }
  }

  /** An identity that is recovered has the key it was recovered from; but two artifacts may share a key. */
  lemma KeyInvertsParse(artifactType: ArtifactType, key: string)
    requires ParseIdentity(artifactType, key).Some?
    ensures var a := ParseIdentity(artifactType, key).value;
            KeyOf(a) == key && TypeOf(a) == artifactType && Nameable(a)
  {
    var prefix := if artifactType == KernelType then KERNEL_PREFIX else IMAGE_PREFIX;
    var rest := key[|prefix|..];
    assert key == prefix + rest;
    SplitOnceMeans(rest);
  }

  /** The images whose key is that of another image. */
  predicate Misread(a: Artifact) {
    a.ImageId? && ':' in a.pair.0 && a.pair.0[0] != ':'
  }

  /** Splitting at the first colon stops inside `d` when it has one. */
  lemma SplitsInside(d: string, i: string)
    requires ':' in d
    ensures var halves := SplitOnce(d + ":" + i);
            halves.Some? && |halves.value.0| < |d| && halves.value.1 != "" && (halves.value.0 == "" <==> d[0] == ':')
  {
    var s := d + ":" + i;
    SplitOnceMeans(s);
    var halves := SplitOnce(s).value;
    if |halves.0| >= |d| {
      assert forall k | 0 <= k < |d| :: d[k] == s[k] == halves.0[k];
      assert false;
    }
    assert |s| == |halves.0| + 1 + |halves.1|;
    assert s[0] == d[0];
  }

  /** Exactly these are taken for another artifact; what is not nameable otherwise is taken for none. */
  lemma MisreadExactly(a: Artifact)
    ensures var parsed := ParseIdentity(TypeOf(a), KeyOf(a));
            (parsed.Some? && parsed != Some(a)) <==> Misread(a)
  {
    ParseInvertsKey(a);
    match a
    case KernelId(id) => StripPrefixUndoes(KERNEL_PREFIX, id);
    case ImageId(pair) =>
      StripPrefixUndoes(IMAGE_PREFIX, pair.0 + ":" + pair.1);
      if ':' in pair.0 {
        SplitsInside(pair.0, pair.1);
      } else {
        SplitOnceJoins(pair.0, pair.1);
      }
  }

  /** For instance, image `c` of distribution `a:b` is taken for image `b:c` of distribution `a`. */
  lemma ColonMisleads()
    ensures ParseIdentity(ImageType, KeyOf(ImageId(("a:b", "c")))) == Some(ImageId(("a", "b:c")))
  {
    var d, i := "a", "b:c";
    StripPrefixUndoes(IMAGE_PREFIX, "a:b" + ":" + "c");
    assert "a:b" + ":" + "c" == d + ":" + i;
    SplitOnceJoins(d, i);
  }
}

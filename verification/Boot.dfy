/**
  The systemd instance name of an SDK home: `escape_path`, `trim_slashes` and `instance_unit`, against the
  decoder that systemd.unit(5), "String Escaping for Inclusion in Unit Names", prescribes.
*/
module Boot {
  import opened Wrappers

  type Byte = b: int | 0 <= b < 256

  const SLASH: Byte := 47
  const DOT: Byte := 46

  // ---------------------------------------------------------------------------------------------------
  // Paths as their components
  // ---------------------------------------------------------------------------------------------------

  /** How many bytes precede the first slash. */
  function Run(p: seq<Byte>): (n: nat)
    ensures n <= |p|
    ensures forall i | 0 <= i < n :: p[i] != SLASH
    ensures n < |p| ==> p[n] == SLASH
  {
    if p == [] || p[0] == SLASH then 0 else 1 + Run(p[1..])
  }

  /** The non-empty components of a path. */
  function Pieces(p: seq<Byte>): (ps: seq<seq<Byte>>)
    ensures forall i | 0 <= i < |ps| :: ps[i] != [] && SLASH !in ps[i]
    decreases |p|
  {
    if p == [] then []
    else if p[0] == SLASH then Pieces(p[1..])
    else [p[..Run(p)]] + Pieces(p[Run(p)..])
  }

  function Join(ps: seq<seq<Byte>>): seq<Byte> {
    if ps == [] then []
    else if |ps| == 1 then ps[0]
    else ps[0] + [SLASH] + Join(ps[1..])
  }

  /** The normal form of a path: its components, separated by single slashes. */
  function Normal(p: seq<Byte>): seq<Byte> {
    Join(Pieces(p))
  }

  /** A run that ends inside `x` does not see what follows. */
  lemma {:induction false} RunStops(x: seq<Byte>, y: seq<Byte>)
    ensures Run(x + [SLASH] + y) == Run(x)
  {
    var whole := x + [SLASH] + y;
    if x != [] && x[0] != SLASH {
      assert whole[1..] == x[1..] + [SLASH] + y;
      RunStops(x[1..], y);
    }
  }

  /** A slash splits the components. */
  lemma {:induction false} PiecesSplit(x: seq<Byte>, y: seq<Byte>)
    ensures Pieces(x + [SLASH] + y) == Pieces(x) + Pieces(y)
    decreases |x|
  {
    var whole := x + [SLASH] + y;
    if x == [] {
      assert whole[1..] == y;
    } else if x[0] == SLASH {
      assert whole[1..] == x[1..] + [SLASH] + y;
      PiecesSplit(x[1..], y);
    } else {
      var n := Run(x);
      RunIsSplit(x, y);
      PiecesSplit(x[n..], y);
      assert Pieces(whole) == [x[..n]] + (Pieces(x[n..]) + Pieces(y));
    }
  }

  /** The first component and what follows it. */
  lemma {:induction false} RunIsSplit(x: seq<Byte>, y: seq<Byte>)
    requires x != [] && x[0] != SLASH
    ensures var whole, n := x + [SLASH] + y, Run(x);
            Run(whole) == n && whole[..n] == x[..n] && whole[n..] == x[n..] + [SLASH] + y
  {
    RunStops(x, y);
  }

  /** No slash at either end, and no two in a row. */
  ghost predicate Clean(t: seq<Byte>) {
    && (t != [] ==> t[0] != SLASH && t[|t| - 1] != SLASH)
    && NoDouble(t)
  }

  predicate NoDouble(t: seq<Byte>) {
    forall i | 0 < i < |t| :: !(t[i - 1] == SLASH && t[i] == SLASH)
  }

  /** A clean path is its own normal form. */
  lemma {:induction false} CleanIsNormal(t: seq<Byte>)
    requires Clean(t)
    ensures Normal(t) == t
    decreases |t|
  {
    if t != [] {
      var n := Run(t);
      var head := t[..n];
      assert forall i | 0 <= i < n :: head[i] == t[i];
      WholeRun(head);
      if n == |t| {
        assert head == t;
      } else {
        var rest := t[n + 1..];
        assert rest != [] && rest[0] == t[n + 1];
        CleanIsNormal(rest);
        assert t == head + [SLASH] + rest;
        PiecesSplit(head, rest);
        JoinOne(head, Pieces(rest));
      }
    }
  }

  lemma JoinOne(head: seq<Byte>, ps: seq<seq<Byte>>)
    requires ps != []
    ensures Join([head] + ps) == head + [SLASH] + Join(ps)
  {
    assert ([head] + ps)[1..] == ps;
  }

  /** Joining components and splitting again gives them back. */
  lemma {:induction false} PiecesOfJoin(ps: seq<seq<Byte>>)
    requires forall i | 0 <= i < |ps| :: ps[i] != [] && SLASH !in ps[i]
    ensures Pieces(Join(ps)) == ps
  {
    if |ps| >= 1 {
      WholeRun(ps[0]);
      assert ps == [ps[0]] + ps[1..];
      if |ps| > 1 {
        PiecesOfJoin(ps[1..]);
        PiecesSplit(ps[0], Join(ps[1..]));
      }
    }
  }

  lemma {:induction false} WholeRun(x: seq<Byte>)
    requires x != [] && SLASH !in x
    ensures Run(x) == |x| && Pieces(x) == [x]
  {
    assert forall i | 0 <= i < |x| :: x[i] in x;
    assert x[..|x|] == x && x[|x|..] == [];
  }

  /** A slash right after a slash adds no component. */
  lemma {:induction false} DoubleSlashIsOne(c: seq<Byte>, rest: seq<Byte>)
    requires |c| > 0 && c[|c| - 1] == SLASH && rest != [] && rest[0] == SLASH
    ensures Pieces(c + rest) == Pieces(c + rest[1..])
  {
    var x, y := c[..|c| - 1], rest[1..];
    assert c + rest == x + [SLASH] + rest && c + y == x + [SLASH] + y;
    PiecesSplit(x, rest);
    PiecesSplit(x, y);
  }

  /** A slash at the end adds no component. */
  lemma {:induction false} LastSlashIsNone(s: seq<Byte>)
    requires |s| > 0 && s[|s| - 1] == SLASH
    ensures Pieces(s) == Pieces(s[..|s| - 1])
  {
    var x := s[..|s| - 1];
    assert s == x + [SLASH] + [];
    PiecesSplit(x, []);
  }

  /** `trim_slashes`: the loops that collapse runs of slashes and strip both ends compute the normal form. */
  method TrimSlashes(bytes: seq<Byte>) returns (r: seq<Byte>)
    ensures r == Normal(bytes)
  {
    var collapsed := Collapse(bytes);
    r := StripEnds(collapsed);
    CleanIsNormal(r);
  }

  lemma {:induction false} SlashIsDropped(c: seq<Byte>, bytes: seq<Byte>, i: nat)
    requires i < |bytes| && bytes[i] == SLASH && |c| > 0 && c[|c| - 1] == SLASH
    ensures Pieces(c + bytes[i..]) == Pieces(c + bytes[i + 1..])
  {
    DoubleSlashIsOne(c, bytes[i..]);
    assert bytes[i..][1..] == bytes[i + 1..];
  }

  lemma {:induction false} ByteIsMoved(c: seq<Byte>, bytes: seq<Byte>, i: nat)
    requires i < |bytes|
    ensures c + bytes[i..] == (c + [bytes[i]]) + bytes[i + 1..]
  {
    assert bytes[i..] == [bytes[i]] + bytes[i + 1..];
  }

  method Collapse(bytes: seq<Byte>) returns (collapsed: seq<Byte>)
    ensures NoDouble(collapsed) && Pieces(collapsed) == Pieces(bytes)
  {
    collapsed := [];
    assert collapsed + bytes[0..] == bytes;
    for i := 0 to |bytes|
      invariant NoDouble(collapsed)
      invariant Pieces(collapsed + bytes[i..]) == Pieces(bytes)
    {
      if bytes[i] == SLASH && |collapsed| > 0 && collapsed[|collapsed| - 1] == SLASH {
        SlashIsDropped(collapsed, bytes, i);
      } else {
        ByteIsMoved(collapsed, bytes, i);
        collapsed := collapsed + [bytes[i]];
      }
    }
    assert collapsed + bytes[|bytes|..] == collapsed;
  }

  /** The slice from the first to the last byte that is not a slash. */
  method StripEnds(s: seq<Byte>) returns (r: seq<Byte>)
    requires NoDouble(s)
    ensures Clean(r) && Pieces(r) == Pieces(s)
  {
    var start := 0;
    while start < |s| && s[start] == SLASH
      invariant start <= |s| && Pieces(s[start..]) == Pieces(s)
    {
      assert s[start..][1..] == s[start + 1..];
      start := start + 1;
    }
    if start == |s| {
      return [];
    }
    r := StripRight(s[start..]);
  }

  method StripRight(s: seq<Byte>) returns (r: seq<Byte>)
    requires NoDouble(s) && s != [] && s[0] != SLASH
    ensures Clean(r) && Pieces(r) == Pieces(s)
  {
    r := s;
    while r[|r| - 1] == SLASH
      invariant r != [] && r <= s && NoDouble(r) && Pieces(r) == Pieces(s)
      decreases |r|
    {
      LastSlashIsNone(r);
      r := r[..|r| - 1];
    }
  }

  // ---------------------------------------------------------------------------------------------------
  // Escaping and its inverse
  // ---------------------------------------------------------------------------------------------------

  function HexDigit(n: int): (c: char)
    requires 0 <= n < 16
  {
    if n < 10 then (48 + n) as char else (87 + n) as char
  }

  function HexValue(c: char): Option<int> {
    if '0' <= c <= '9' then Some(c as int - 48)
    else if 'a' <= c <= 'f' then Some(c as int - 87)
    else None
  }

  predicate Plain(b: Byte) {
    (97 <= b <= 122) || (65 <= b <= 90) || (48 <= b <= 57) || b == 58 || b == 95 || b == DOT
  }

  function EscapeByte(b: Byte, first: bool): string {
    if b == SLASH then "-"
    else if Plain(b) && !(first && b == DOT) then [b as char]
    else ['\\', 'x', HexDigit(b / 16), HexDigit(b % 16)]
  }

  function EscapeBytes(t: seq<Byte>, first: bool): string {
    if t == [] then "" else EscapeByte(t[0], first) + EscapeBytes(t[1..], false)
  }

  /** The escaped form of a trimmed path; the root directory is a lone dash. */
  function Escaped(t: seq<Byte>): string {
    if t == [] then "-" else EscapeBytes(t, true)
  }

  /** The match on one byte in `escape_path`. */
  method EscapeOne(b: Byte, index: nat) returns (piece: string)
    ensures piece == EscapeByte(b, index == 0)
  {
    if b == SLASH {
      piece := "-";
    } else if b == DOT && index == 0 {
      piece := "\\x2e";
    } else if Plain(b) {
      piece := [b as char];
    } else {
      piece := ['\\', 'x', HexDigit(b / 16), HexDigit(b % 16)];
    }
  }

  /** `escape_path`. */
  method EscapePath(path: seq<Byte>) returns (escaped: string)
    ensures escaped == Escaped(Normal(path))
  {
    var trimmed := TrimSlashes(path);
    if trimmed == [] {
      return "-";
    }
    escaped := EscapeTrimmed(trimmed);
  }

  lemma {:induction false} PieceIsMoved(escaped: string, trimmed: seq<Byte>, i: nat)
    requires i < |trimmed|
    ensures escaped + EscapeBytes(trimmed[i..], i == 0)
            == (escaped + EscapeByte(trimmed[i], i == 0)) + EscapeBytes(trimmed[i + 1..], false)
  {
    var piece, tail := EscapeByte(trimmed[i], i == 0), EscapeBytes(trimmed[i + 1..], false);
    assert trimmed[i..][1..] == trimmed[i + 1..];
    Associates(escaped, piece, tail);
  }

  lemma Associates(a: string, b: string, c: string)
    ensures a + (b + c) == (a + b) + c
  {
  }

  method EscapeTrimmed(trimmed: seq<Byte>) returns (escaped: string)
    ensures escaped == EscapeBytes(trimmed, true)
  {
    escaped := "";
    assert trimmed[0..] == trimmed && escaped + EscapeBytes(trimmed, true) == EscapeBytes(trimmed, true);
    for i := 0 to |trimmed|
      invariant escaped + EscapeBytes(trimmed[i..], i == 0) == EscapeBytes(trimmed, true)
    {
      var piece := EscapeOne(trimmed[i], i);
      PieceIsMoved(escaped, trimmed, i);
      escaped := escaped + piece;
    }
    assert escaped + "" == escaped;
  }

  /** systemd's decoder for one escaped string. */
  function Unescape(s: string): Option<seq<Byte>> {
    if s == "" then Some([])
    else if s[0] == '-' then Prepend(SLASH, Unescape(s[1..]))
    else if s[0] == '\\' then
      if |s| >= 4 && s[1] == 'x' && HexValue(s[2]).Some? && HexValue(s[3]).Some?
      then Prepend(16 * HexValue(s[2]).value + HexValue(s[3]).value, Unescape(s[4..]))
      else None
    else if s[0] as int < 128 then Prepend(s[0] as int, Unescape(s[1..]))
    else None
  }

  function Prepend(b: Byte, rest: Option<seq<Byte>>): Option<seq<Byte>> {
    if rest.Some? then Some([b] + rest.value) else None
  }

  /** systemd's decoder for a path instance, up to its last check: no slash at either end, and one put in front. */
  function RawPath(s: string): Option<seq<Byte>> {
    if s == "-" then Some([SLASH])
    else
      var p := Unescape(s);
      if p.None? || p.value == [] || p.value[0] == SLASH || p.value[|p.value| - 1] == SLASH then None
      else Some([SLASH] + p.value)
  }

  predicate NoDots(ps: seq<seq<Byte>>) {
    forall i | 0 <= i < |ps| :: ps[i] != [DOT] && ps[i] != [DOT, DOT]
  }

  /** The last check: no empty component, and none that is `.` or `..`. */
  predicate IsNormalised(p: seq<Byte>) {
    NoDouble(p) && NoDots(Pieces(p))
  }

  /** systemd's decoder for a path instance: what `%f` expands to. */
  function UnescapePath(s: string): Option<seq<Byte>> {
    var p := RawPath(s);
    if p.Some? && IsNormalised(p.value) then p else None
  }

  lemma {:induction false} UnescapeByte(b: Byte, first: bool, rest: string)
    ensures Unescape(EscapeByte(b, first) + rest) == Prepend(b, Unescape(rest))
  {
    var piece := EscapeByte(b, first);
    var s := piece + rest;
    if b == SLASH || (Plain(b) && !(first && b == DOT)) {
      assert s[0] == piece[0] && s[1..] == rest;
    } else {
      assert s[0] == '\\' && s[1] == 'x' && s[2] == HexDigit(b / 16) && s[3] == HexDigit(b % 16);
      assert s[4..] == rest;
      assert HexValue(s[2]) == Some(b / 16) && HexValue(s[3]) == Some(b % 16);
    }
  }

  lemma {:induction false} UnescapeBytes(t: seq<Byte>, first: bool)
    ensures Unescape(EscapeBytes(t, first)) == Some(t)
  {
    if t != [] {
      UnescapeBytes(t[1..], false);
      UnescapeByte(t[0], first, EscapeBytes(t[1..], false));
      assert [t[0]] + t[1..] == t;
    }
  }

  /** The normal form is clean. */
  lemma {:induction false} NormalIsClean(ps: seq<seq<Byte>>)
    requires forall i | 0 <= i < |ps| :: ps[i] != [] && SLASH !in ps[i]
    ensures Join(ps) != [] ==> Join(ps)[0] != SLASH && Join(ps)[|Join(ps)| - 1] != SLASH
    ensures Join(ps) == [] <==> ps == []
  {
    if |ps| >= 1 {
      assert ps[0][0] in ps[0] && ps[0][|ps[0]| - 1] in ps[0];
      if |ps| > 1 {
        NormalIsClean(ps[1..]);
      }
    }
  }

  /** Joined components have no two slashes in a row. */
  lemma {:induction false} JoinHasNoDouble(ps: seq<seq<Byte>>)
    requires forall i | 0 <= i < |ps| :: ps[i] != [] && SLASH !in ps[i]
    ensures NoDouble([SLASH] + Join(ps))
  {
    if |ps| >= 1 {
      var head, whole := ps[0], [SLASH] + Join(ps);
      assert forall i | 0 <= i < |head| :: head[i] in head;
      if |ps| > 1 {
        var tail := [SLASH] + Join(ps[1..]);
        JoinHasNoDouble(ps[1..]);
        assert whole == [SLASH] + head + tail;
        forall i | 0 < i < |whole| ensures !(whole[i - 1] == SLASH && whole[i] == SLASH) {
          if i > |head| + 1 {
            assert whole[i - 1] == tail[i - 2 - |head|] && whole[i] == tail[i - 1 - |head|];
          }
        }
      }
    }
  }

  /** The characters that systemd allows in an instance name. */
  predicate IsUnitChar(c: char) {
    || 'a' <= c <= 'z' || 'A' <= c <= 'Z' || '0' <= c <= '9'
    || c == ':' || c == '-' || c == '_' || c == '.' || c == '\\'
  }

  /** One byte is escaped with allowed characters, and at the start of a name never with a dot. */
  lemma EscapedByteIsAllowed(b: Byte, first: bool)
    ensures EscapeByte(b, first) != "" && forall c | c in EscapeByte(b, first) :: IsUnitChar(c)
    ensures first ==> EscapeByte(b, first)[0] != '.'
  {
    assert IsUnitChar(HexDigit(b / 16)) && IsUnitChar(HexDigit(b % 16));
  }

  lemma {:induction false} EscapedBytesAreAllowed(t: seq<Byte>, first: bool)
    ensures forall c | c in EscapeBytes(t, first) :: IsUnitChar(c)
    ensures first && t != [] ==> EscapeBytes(t, first)[0] != '.'
  {
    if t != [] {
      EscapedByteIsAllowed(t[0], first);
      EscapedBytesAreAllowed(t[1..], false);
    }
  }

  /** The instance name of a home has only characters that systemd allows, and does not start with a dot. */
  lemma EscapedIsAllowed(home: seq<Byte>)
    ensures var name := Escaped(Normal(home)); name != "" && name[0] != '.' && forall c | c in name :: IsUnitChar(c)
  {
    EscapedBytesAreAllowed(Normal(home), true);
    if Normal(home) != [] {
      EscapedByteIsAllowed(Normal(home)[0], true);
    }
  }

  /** `instance_unit`. */
  method InstanceUnit(home: seq<Byte>) returns (unit: string)
    ensures unit == UnitName(home)
  {
    var escaped := EscapePath(home);
    unit := "taumaru-microvm-autostart@" + escaped + ".service";
  }

  function UnitName(home: seq<Byte>): string {
    "taumaru-microvm-autostart@" + Escaped(Normal(home)) + ".service"
  }

  /** Before its last check, the decoder has the home again, normalised. */
  lemma {:induction false} EscapeDecodes(path: seq<Byte>)
    ensures RawPath(Escaped(Normal(path))) == Some([SLASH] + Normal(path))
    ensures Escaped(Normal(path)) == "-" <==> Pieces(path) == []
  {
    var t := Normal(path);
    NormalIsClean(Pieces(path));
    UnescapeBytes(t, true);
    var dash := "-";
    assert dash[1..] == "" && Unescape(dash[1..]) == Some([]);
    var none: seq<Byte> := [];
    assert [SLASH] + none == [SLASH];
    assert Unescape(dash) == Some([SLASH]);
    assert t == [] ==> [SLASH] + t == [SLASH];
    assert t != [] ==> t != [SLASH];
  }

  /**
    The main theorem on boot units: systemd expands the instance name back to the home, normalised, exactly when no
    component of the home is `.` or `..`, as in a canonical path; otherwise it refuses the name. The root directory
    has a name that no other path can get.
  */
  lemma {:induction false} EscapeRoundTrips(path: seq<Byte>)
    ensures UnescapePath(Escaped(Normal(path))) == if NoDots(Pieces(path)) then Some([SLASH] + Normal(path)) else None
    ensures Escaped(Normal(path)) == "-" <==> Pieces(path) == []
  {
    var t := Normal(path);
    EscapeDecodes(path);
    JoinHasNoDouble(Pieces(path));
    PiecesOfJoin(Pieces(path));
    assert ([SLASH] + t)[1..] == t;
  }

  /** Two homes share a unit exactly when they are the same path component by component. */
  lemma {:induction false} UnitsAreDistinct(home: seq<Byte>, other: seq<Byte>)
    ensures UnitName(home) == UnitName(other) <==> Pieces(home) == Pieces(other)
  {
    if UnitName(home) == UnitName(other) {
      var prefix, suffix := "taumaru-microvm-autostart@", ".service";
      var e, f := Escaped(Normal(home)), Escaped(Normal(other));
      assert e == UnitName(home)[|prefix|..|UnitName(home)| - |suffix|];
      assert f == UnitName(other)[|prefix|..|UnitName(other)| - |suffix|];
      EscapeDecodes(home);
      EscapeDecodes(other);
      assert ([SLASH] + Normal(home))[1..] == Normal(home);
      assert ([SLASH] + Normal(other))[1..] == Normal(other);
      PiecesOfJoin(Pieces(home));
      PiecesOfJoin(Pieces(other));
    }
  }
}

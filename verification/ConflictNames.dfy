/** The name a losing local copy is kept under: `conflict_copy` and `floor_char_boundary` of crates/client/src/sync/plan.rs. */
module ConflictNames {
  import opened Results
  import opened Paths

  /** What `%Y%m%dT%H%M%SZ` writes for a four-digit year. */
  predicate IsStamp(stamp: string) {
    |stamp| == 16 && forall i :: 0 <= i < |stamp| ==> '0' <= stamp[i] <= '9' || stamp[i] == 'T' || stamp[i] == 'Z'
  }

  function Suffix(stamp: string): string { " (conflict " + stamp + ")" }

  predicate IsCharBoundary(text: string, at: nat)
    requires at <= |text|
  {
    at == 0 || at == |text| || !(0x80 as char <= text[at] <= 0xBF as char)
  }

  /** The longest cut within the limit that splits no character. */
  function FloorCharBoundary(text: string, limit: nat): (at: nat)
    ensures at <= limit && at <= |text| && IsCharBoundary(text, at)
    ensures forall other: nat :: other <= limit && other <= |text| && IsCharBoundary(text, other) ==> other <= at
  {
    if limit >= |text| then |text|
    else if IsCharBoundary(text, limit) then limit
    else FloorCharBoundary(text, limit - 1)
  }

  /** `rsplit_once('.')`: where the last dot is. */
  function LastDot(name: string): (at: Option<nat>)
    ensures at.None? ==> '.' !in name
    ensures at.Some? ==> at.value < |name| && name[at.value] == '.'
    ensures at.Some? ==> forall i :: at.value < i < |name| ==> name[i] != '.'
  {
    if |name| == 0 then None
    else if name[|name| - 1] == '.' then Some(|name| - 1)
    else
      assert name == name[..|name| - 1] + [name[|name| - 1]];
      LastDot(name[..|name| - 1])
  }

  /** Where the extension starts, its dot included; a name with nothing before its only dot has none. */
  function StemLength(name: string): (at: nat)
    ensures at <= |name|
  {
    match LastDot(name)
    case Some(at) => if at > 0 then at else |name|
    case None => |name|
  }

  function Extension(name: string, suffix: string): string {
    var extension := name[StemLength(name)..];
    if |suffix| + |extension| < MAX_NAME_LEN then extension else ""
  }

  function ConflictName(name: string, stamp: string): string
    requires IsStamp(stamp)
  {
    var suffix := Suffix(stamp);
    var extension := Extension(name, suffix);
    var stem := name[..StemLength(name)];
    var room := MAX_NAME_LEN - |suffix| - |extension|;
    stem[..FloorCharBoundary(stem, room)] + suffix + extension
  }

  function ConflictCopy(path: string, stamp: string): Option<string>
    requires IsStamp(stamp)
  {
    WithFileName(path, ConflictName(FileName(path), stamp))
  }

  lemma SuffixBytes(stamp: string)
    requires IsStamp(stamp)
    ensures |Suffix(stamp)| == 28
    ensures forall i :: 0 <= i < 28 ==> ' ' <= Suffix(stamp)[i] <= 'z' && Suffix(stamp)[i] !in {'/', '\\', '.'}
  {
  }

  lemma ConflictNameIsValid(name: string, stamp: string)
    requires ValidName(name) && IsStamp(stamp)
    ensures ValidName(ConflictName(name, stamp))
  {
    SuffixBytes(stamp);
    var suffix, extension := Suffix(stamp), Extension(name, Suffix(stamp));
    var stem := name[..StemLength(name)];
    var cut := FloorCharBoundary(stem, MAX_NAME_LEN - |suffix| - |extension|);
    var copy := ConflictName(name, stamp);
    assert copy == stem[..cut] + suffix + extension;
    forall i | 0 <= i < |copy|
      ensures copy[i] != '/' && copy[i] != '\\' && !ControlByte(copy[i])
      ensures i < |copy| - 1 ==> !ControlPair(copy[i], copy[i + 1])
    {
      if i < cut {
        assert copy[i] == name[i] && name[i] in name && !ControlByte(name[i]);
        assert i + 1 < cut ==> copy[i + 1] == name[i + 1] && !ControlPair(name[i], name[i + 1]);
        assert i + 1 == cut ==> copy[i + 1] == suffix[0];
      } else if i < cut + 28 {
        assert copy[i] == suffix[i - cut];
      } else {
        var j := StemLength(name) + (i - cut - 28);
        assert copy[i] == name[j] && name[j] in name && !ControlByte(name[j]);
        assert j < |name| - 1 ==> copy[i + 1] == name[j + 1] && !ControlPair(name[j], name[j + 1]);
      }
    }
  }

  /**
    A conflict copy always exists: it is a valid path in the same directory, so nothing is ever
    left undecided for want of a name.
   */
  lemma ConflictCopyExists(path: string, stamp: string)
    requires ValidPath(path) && IsStamp(stamp)
    ensures ConflictCopy(path, stamp) == Some(Beside(path, ConflictName(FileName(path), stamp)))
    ensures ValidPath(ConflictCopy(path, stamp).value)
    ensures Parent(ConflictCopy(path, stamp).value) == Parent(path)
    ensures forall d :: Inside(ConflictCopy(path, stamp).value, d) <==> Inside(path, d)
  {
    var name := FileName(path);
    SplitPath(path);
    assert name in Split(path);
    ConflictNameIsValid(name, stamp);
    WithFileNameIsBeside(path, ConflictName(name, stamp));
    BesideIsValid(path, ConflictName(name, stamp));
    BesideKeepsTheDirectory(path, ConflictName(name, stamp));
  }

  /** A name short enough that nothing of it is cut away. */
  predicate Untruncated(name: string) { |name| + 28 <= MAX_NAME_LEN }

  lemma UntruncatedName(name: string, stamp: string)
    requires Untruncated(name) && IsStamp(stamp)
    ensures ConflictName(name, stamp) == name[..StemLength(name)] + Suffix(stamp) + name[StemLength(name)..]
  {
    SuffixBytes(stamp);
  }

  /** Names that lose nothing keep apart: two of them never share a conflict copy. */
  lemma UntruncatedNamesStayApart(a: string, b: string, stamp: string)
    requires Untruncated(a) && Untruncated(b) && IsStamp(stamp)
    requires ConflictName(a, stamp) == ConflictName(b, stamp)
    ensures a == b
  {
    UntruncatedName(a, stamp);
    UntruncatedName(b, stamp);
    SuffixBytes(stamp);
    if |a| - StemLength(a) < |b| - StemLength(b) {
      LongerExtensionShows(a, b, stamp);
    } else if |b| - StemLength(b) < |a| - StemLength(a) {
      LongerExtensionShows(b, a, stamp);
    }
    var copy := ConflictName(a, stamp);
    var at := StemLength(a);
    assert |a| == |b| && at == StemLength(b);
    assert a[..at] == copy[..at] == b[..at];
    assert a[at..] == copy[at + 28..] == b[at..];
    assert a == a[..at] + a[at..] && b == b[..at] + b[at..];
  }

  lemma LongerExtensionShows(a: string, b: string, stamp: string)
    requires IsStamp(stamp)
    requires |a| - StemLength(a) < |b| - StemLength(b)
    ensures a[..StemLength(a)] + Suffix(stamp) + a[StemLength(a)..] != b[..StemLength(b)] + Suffix(stamp) + b[StemLength(b)..]
  {
    SuffixBytes(stamp);
    var x := a[..StemLength(a)] + Suffix(stamp) + a[StemLength(a)..];
    var y := b[..StemLength(b)] + Suffix(stamp) + b[StemLength(b)..];
    var dot := StemLength(b) + 28;
    if |x| == |y| {
      assert y[dot] == b[StemLength(b)] == '.';
      if StemLength(a) < |a| {
        var later := StemLength(a) + 28;
        assert x[later] == '.';
        assert y[later] == b[later - 28];
      } else if dot < |a| {
        assert x[dot] == a[dot];
      } else {
        assert x[dot] == Suffix(stamp)[dot - |a|];
      }
    }
  }

  /** What is left of a name's stem once a suffix has to fit behind it. */
  function CutStem(name: string, stamp: string): nat
    requires IsStamp(stamp)
  {
    FloorCharBoundary(name[..StemLength(name)], MAX_NAME_LEN - |Suffix(stamp)| - |Extension(name, Suffix(stamp))|)
  }

  predicate KeepsExtension(name: string) { |name| - StemLength(name) + 28 < MAX_NAME_LEN }

  /** A copy's extension is its original's. */
  lemma StemOfCopy(name: string, stamp: string)
    requires IsStamp(stamp) && KeepsExtension(name)
    ensures CutStem(name, stamp) <= StemLength(name)
    ensures var copy, cut := ConflictName(name, stamp), CutStem(name, stamp);
            && copy == name[..cut] + Suffix(stamp) + name[StemLength(name)..]
            && StemLength(copy) == cut + 28
            && copy[..StemLength(copy)] == name[..cut] + Suffix(stamp)
  {
    SuffixBytes(stamp);
    var copy, cut, at := ConflictName(name, stamp), CutStem(name, stamp), StemLength(name);
    assert copy == name[..cut] + Suffix(stamp) + name[at..];
    assert forall i :: 0 <= i < cut ==> copy[i] == name[i];
    assert forall i :: cut <= i < cut + 28 ==> copy[i] == Suffix(stamp)[i - cut];
    assert forall i :: cut + 28 <= i < |copy| ==> copy[i] == name[at + (i - cut - 28)];
    assert at == |name| ==> forall i :: 0 < i < |copy| ==> copy[i] != '.';
    assert copy[..cut + 28] == name[..cut] + Suffix(stamp);
  }

  /** Two names are not each other's copies. */
  lemma NoNamesSwap(a: string, b: string, stamp: string)
    requires IsStamp(stamp) && ValidName(a) && ValidName(b)
    requires ConflictName(a, stamp) == b && ConflictName(b, stamp) == a
    ensures a == b
  {
    SuffixBytes(stamp);
    LongExtensionsGo(a, stamp);
    LongExtensionsGo(b, stamp);
    StemOfCopy(a, stamp);
    StemOfCopy(b, stamp);
    hide LastDot, StemLength, ConflictName, Extension, FloorCharBoundary, Suffix, ValidName;
    CutsAgree(a, b, stamp);
    CutsAgree(b, a, stamp);
    var cut := CutStem(a, stamp);
    assert a[..cut] == b[..StemLength(b)][..cut] == b[..cut];
  }

  /** A name whose extension is too long to keep has a copy too short to lead back to it. */
  lemma LongExtensionsGo(name: string, stamp: string)
    requires IsStamp(stamp) && ValidName(name) && ConflictName(ConflictName(name, stamp), stamp) == name
    ensures KeepsExtension(name)
  {
    SuffixBytes(stamp);
  }

  lemma CutsAgree(a: string, b: string, stamp: string)
    requires IsStamp(stamp) && KeepsExtension(a) && KeepsExtension(b)
    requires ConflictName(a, stamp) == b && StemLength(b) == CutStem(a, stamp) + 28 <= |b|
    requires CutStem(a, stamp) <= |a| && b[..StemLength(b)] == a[..CutStem(a, stamp)] + Suffix(stamp)
    requires |a| - StemLength(a) == |b| - StemLength(b)
    ensures CutStem(a, stamp) <= CutStem(b, stamp)
  {
    SuffixBytes(stamp);
    var cut := CutStem(a, stamp);
    assert b[..StemLength(b)][cut] == Suffix(stamp)[0] == ' ';
    assert IsCharBoundary(b[..StemLength(b)], cut);
  }

  function Repeat(c: char, n: nat): (s: string)
    ensures |s| == n && forall i :: 0 <= i < n ==> s[i] == c
  {
    seq(n, _ => c)
  }

  /** Names at the limit may not: these two differ in their last byte only, and share one copy. */
  lemma TruncatedNamesMayMeet(stamp: string)
    requires IsStamp(stamp)
    ensures var a, b := Repeat('x', 254) + "a", Repeat('x', 254) + "b";
            ValidName(a) && ValidName(b) && a != b && ConflictName(a, stamp) == ConflictName(b, stamp)
  {
    var a, b := Repeat('x', 254) + "a", Repeat('x', 254) + "b";
    SuffixBytes(stamp);
    assert a[254] != b[254];
    assert LastDot(a).None? && LastDot(b).None?;
    assert FloorCharBoundary(a, 227) == 227 == FloorCharBoundary(b, 227);
    assert a[..227] == b[..227];
  }
}

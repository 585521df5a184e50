/**
  Paths of a synced folder (crates/client/src/sync/path.rs) and the names they are made of
  (crates/core/src/name.rs).

  A Rust `str` is modelled by its UTF-8 bytes, one `char` per byte, so lengths, orders and
  slices are those of the source. A path is its segments joined by '/'.
 */
module Paths {
  import opened Results

  const MAX_NAME_LEN := 255

  // ---------- the order a BTreeMap keeps its keys in ----------

  predicate Less(a: string, b: string) {
    |b| > 0 && (|a| == 0 || a[0] < b[0] || (a[0] == b[0] && Less(a[1..], b[1..])))
  }

  lemma {:induction false} LessIrreflexive(a: string)
    ensures !Less(a, a)
  {
    if |a| > 0 { LessIrreflexive(a[1..]); }
  }

  lemma {:induction false} LessTransitive(a: string, b: string, c: string)
    requires Less(a, b) && Less(b, c)
    ensures Less(a, c)
  {
    if |a| > 0 && a[0] == b[0] == c[0] {
      LessTransitive(a[1..], b[1..], c[1..]);
    }
  }

  lemma {:induction false} LessTotal(a: string, b: string)
    ensures a == b || Less(a, b) || Less(b, a)
  {
    if |a| > 0 && |b| > 0 && a[0] == b[0] {
      LessTotal(a[1..], b[1..]);
      assert a == [a[0]] + a[1..] && b == [b[0]] + b[1..];
    }
  }

  lemma LessAsymmetric(a: string, b: string)
    requires Less(a, b)
    ensures !Less(b, a) && a != b
  {
    LessIrreflexive(a);
    if Less(b, a) { LessTransitive(a, b, a); }
  }

  predicate StartsWith(s: string, prefix: string) {
    |prefix| <= |s| && s[..|prefix|] == prefix
  }

  lemma {:induction false} PrefixComesFirst(prefix: string, s: string)
    requires StartsWith(s, prefix) && s != prefix
    ensures Less(prefix, s)
  {
    if |prefix| > 0 {
      assert s[0] == s[..|prefix|][0] == prefix[0];
      assert s[1..][..|prefix| - 1] == s[..|prefix|][1..] == prefix[1..];
      assert s == [s[0]] + s[1..] && prefix == [prefix[0]] + prefix[1..];
      PrefixComesFirst(prefix[1..], s[1..]);
    }
  }

  /** Whatever sorts between a prefix and a string that starts with it starts with it as well. */
  lemma {:induction false} PrefixRun(prefix: string, between: string, s: string)
    requires StartsWith(s, prefix) && Less(prefix, between) && Less(between, s)
    ensures StartsWith(between, prefix)
  {
    if |prefix| > 0 {
      assert s[0] == s[..|prefix|][0] == prefix[0];
      assert s[1..][..|prefix| - 1] == s[..|prefix|][1..] == prefix[1..];
      PrefixRun(prefix[1..], between[1..], s[1..]);
      assert between[..|prefix|] == [between[0]] + between[1..][..|prefix| - 1] == prefix;
    }
  }

  predicate Ascending(s: seq<string>) {
    forall i, j :: 0 <= i < j < |s| ==> Less(s[i], s[j])
  }

  lemma {:induction false} LeastExists(keys: set<string>) returns (least: string)
    requires keys != {}
    ensures IsLeast(least, keys)
  {
    var some :| some in keys;
    var others := keys - {some};
    if others == {} {
      assert keys == {some};
      return some;
    }
    var l := LeastExists(others);
    LessTotal(some, l);
    if Less(l, some) { return l; }
    forall k | k in keys && k != some ensures Less(some, k) {
      if k != l { LessTransitive(some, l, k); }
    }
    return some;
  }

  predicate IsLeast(least: string, keys: set<string>) {
    least in keys && forall k :: k in keys && k != least ==> Less(least, k)
  }

  lemma LeastUnique(keys: set<string>, a: string, b: string)
    requires IsLeast(a, keys) && IsLeast(b, keys)
    ensures a == b
  {
    if a != b { LessAsymmetric(a, b); }
  }

  /** The keys of a `BTreeMap` or `BTreeSet` in the order iterating it visits them. */
  function Ordered(keys: set<string>): (s: seq<string>)
    ensures Ascending(s)
    ensures forall k :: k in s <==> k in keys
  {
    if keys == {} then []
    else
      assert exists l :: IsLeast(l, keys) by {
        var l := LeastExists(keys);
        assert IsLeast(l, keys);
      }
      assert forall a, b :: IsLeast(a, keys) && IsLeast(b, keys) ==> a == b by {
        forall a, b | IsLeast(a, keys) && IsLeast(b, keys) ensures a == b { LeastUnique(keys, a, b); }
      }
      var least :| IsLeast(least, keys);
      [least] + Ordered(keys - {least})
  }

  // ---------- splitting and joining ----------

  function Split(s: string): (segments: seq<string>)
    ensures |segments| > 0
    ensures forall i :: 0 <= i < |segments| ==> '/' !in segments[i]
  {
    if '/' !in s then [s]
    else if s[0] == '/' then [""] + Split(s[1..])
    else
      var rest := Split(s[1..]);
      [[s[0]] + rest[0]] + rest[1..]
  }

  function Join(segments: seq<string>): string
    requires |segments| > 0
  {
    if |segments| == 1 then segments[0] else segments[0] + "/" + Join(segments[1..])
  }

  lemma {:induction false} JoinSplit(s: string)
    ensures Join(Split(s)) == s
  {
    if '/' in s {
      JoinSplit(s[1..]);
      assert s == [s[0]] + s[1..];
      if s[0] == '/' {
        assert Split(s)[1..] == Split(s[1..]);
      } else {
        var rest := Split(s[1..]);
        assert Split(s)[1..] == rest[1..];
      }
    }
  }

  lemma {:induction false} SplitSlash(a: string, b: string)
    ensures Split(a + "/" + b) == Split(a) + Split(b)
  {
    var s := a + "/" + b;
    assert s[|a|] == '/';
    if a == "" {
      assert s[1..] == b && Split(a) == [""];
    } else {
      SplitSlash(a[1..], b);
      assert s[1..] == a[1..] + "/" + b;
      assert a == [a[0]] + a[1..];
      if a[0] == '/' {
      } else if '/' !in a {
        assert '/' !in a[1..];
        assert Split(a) == [a] && Split(a[1..]) == [a[1..]];
      } else {
        assert '/' in a[1..];
      }
    }
  }

  lemma {:induction false} SplitJoin(segments: seq<string>)
    requires |segments| > 0
    requires forall i :: 0 <= i < |segments| ==> '/' !in segments[i]
    ensures Split(Join(segments)) == segments
  {
    if |segments| > 1 {
      SplitJoin(segments[1..]);
      SplitSlash(segments[0], Join(segments[1..]));
    }
  }

  // ---------- names ----------

  datatype InvalidName = Empty | TooLong | Relative | Separator | Control

  /** C0 controls and DEL are one byte; the C1 controls U+0080 to U+009F are 0xC2 followed by 0x80 to 0x9F. */
  predicate HasControl(s: string) {
    || (exists i :: 0 <= i < |s| && ControlByte(s[i]))
    || (exists i :: 0 <= i < |s| - 1 && ControlPair(s[i], s[i + 1]))
  }

  predicate ControlByte(c: char) { c < ' ' || c == 0x7F as char }

  predicate ControlPair(first: char, second: char) {
    first == 0xC2 as char && 0x80 as char <= second <= 0x9F as char
  }

  /** `NodeName::from_str`. */
  function ParseName(s: string): (r: Result<string, InvalidName>)
    ensures r.Ok? <==> ValidName(s)
    ensures r.Ok? ==> r.value == s
  {
    if s == "" then Err(Empty)
    else if |s| > MAX_NAME_LEN then Err(TooLong)
    else if s == "." || s == ".." then Err(Relative)
    else if '/' in s || '\\' in s then Err(Separator)
    else if HasControl(s) then Err(Control)
    else Ok(s)
  }

  predicate ValidName(s: string) {
    && 0 < |s| <= MAX_NAME_LEN
    && s != "." && s != ".."
    && '/' !in s && '\\' !in s
    && !HasControl(s)
  }

  // ---------- relative paths ----------

  function NonEmpty(segments: seq<string>): (kept: seq<string>)
    ensures forall s :: s in kept <==> s in segments && s != ""
  {
    if segments == [] then []
    else (if segments[0] == "" then [] else [segments[0]]) + NonEmpty(segments[1..])
  }

  predicate ValidPath(p: string) {
    forall s :: s in Split(p) ==> ValidName(s)
  }

  /** `RelPath::parse`: empty segments are dropped, the rest have to be names, and one has to be left. */
  function Parse(input: string): Option<string> {
    var segments := NonEmpty(Split(input));
    if segments == [] || exists s :: s in segments && !ValidName(s) then None
    else Some(Join(segments))
  }

  lemma {:induction false} NonEmptyKeepsAll(segments: seq<string>)
    requires "" !in segments
    ensures NonEmpty(segments) == segments
  {
    if segments != [] { NonEmptyKeepsAll(segments[1..]); }
  }

  /** A parsed path is valid, and parsing a valid path gives it back. */
  lemma ParseRoundTrip(input: string)
    ensures Parse(input).Some? ==> ValidPath(Parse(input).value)
    ensures Parse(input) == Some(input) <==> ValidPath(input)
  {
    var segments := NonEmpty(Split(input));
    if Parse(input).Some? {
      forall i | 0 <= i < |segments| ensures '/' !in segments[i] {
        assert segments[i] in segments;
      }
      SplitJoin(segments);
    }
    if ValidPath(input) {
      NonEmptyKeepsAll(Split(input));
      JoinSplit(input);
    }
  }

  /** `RelPath::is_inside`: what is left once the directory is stripped starts with a separator. */
  predicate Inside(p: string, directory: string) {
    |p| > |directory| && p[..|directory|] == directory && p[|directory|] == '/'
  }

  /** The string test says what it is for: the directory's segments come first, and more follow. */
  lemma InsideIsAProperPrefixOfSegments(p: string, directory: string)
    ensures Inside(p, directory) <==> Split(directory) < Split(p)
  {
    if Inside(p, directory) {
      var rest := p[|directory| + 1..];
      assert p == directory + "/" + rest;
      SplitSlash(directory, rest);
    }
    if Split(directory) < Split(p) {
      var tail := Split(p)[|Split(directory)|..];
      assert Split(p) == Split(directory) + tail;
      JoinAppend(Split(directory), tail);
      JoinSplit(p);
      JoinSplit(directory);
      assert p == directory + "/" + Join(tail);
    }
  }

  lemma {:induction false} JoinAppend(a: seq<string>, b: seq<string>)
    requires |a| > 0 && |b| > 0
    ensures Join(a + b) == Join(a) + "/" + Join(b)
  {
    if |a| == 1 {
      assert (a + b)[1..] == b;
    } else {
      assert (a + b)[1..] == a[1..] + b;
      JoinAppend(a[1..], b);
    }
  }

  lemma InsideTransitive(p: string, q: string, r: string)
    requires Inside(p, q) && Inside(q, r)
    ensures Inside(p, r)
  {
    assert p[..|r|] == p[..|q|][..|r|];
    assert p[|r|] == p[..|q|][|r|];
  }

  lemma InsideComesLater(p: string, directory: string)
    requires Inside(p, directory)
    ensures Less(directory, p)
  {
    PrefixComesFirst(directory, p);
  }

  /** Two directories above the same path are one inside the other. */
  lemma AncestorsNest(p: string, a: string, b: string)
    requires Inside(p, a) && Inside(p, b)
    ensures a == b || Inside(a, b) || Inside(b, a)
  {
    if |a| == |b| {
    } else if |a| < |b| {
      assert b[..|a|] == p[..|b|][..|a|] == a;
      assert b[|a|] == p[..|b|][|a|];
    } else {
      assert a[..|b|] == p[..|a|][..|b|] == b;
      assert a[|b|] == p[..|a|][|b|];
    }
  }

  /** Every directory a path lies inside of, as cutting it at its separators finds them. */
  function Above(p: string): (dirs: set<string>)
    ensures forall d :: d in dirs <==> Inside(p, d)
  {
    set i | 0 <= i < |p| && p[i] == '/' :: p[..i]
  }

  /** One past the last separator: where `rsplit_once('/')` cuts. */
  function NameStart(p: string): (at: nat)
    ensures at <= |p|
    ensures forall i :: at <= i < |p| ==> p[i] != '/'
    ensures at > 0 ==> p[at - 1] == '/'
  {
    if |p| == 0 || p[|p| - 1] == '/' then |p| else NameStart(p[..|p| - 1])
  }

  function FileName(p: string): string { p[NameStart(p)..] }

  function Parent(p: string): Option<string> {
    if NameStart(p) == 0 then None else Some(p[..NameStart(p) - 1])
  }

  /** The parent is the nearest of the directories above. */
  lemma ParentIsNearest(p: string)
    ensures Parent(p).None? <==> Above(p) == {}
    ensures Parent(p).Some? ==> Inside(p, Parent(p).value)
    ensures forall d :: Inside(p, d) ==>
                          Parent(p).Some? && (d == Parent(p).value || Inside(Parent(p).value, d))
  {
    forall d | Inside(p, d)
      ensures Parent(p).Some? && (d == Parent(p).value || Inside(Parent(p).value, d))
    {
      assert p[|d|] == '/';
      assert |d| < NameStart(p);
      AncestorsNest(p, d, Parent(p).value);
    }
    if Parent(p).Some? { assert Parent(p).value in Above(p); }
  }

  /** `RelPath::child`, which parses what it puts together. */
  function Child(p: string, name: string): Option<string> {
    Parse(p + "/" + name)
  }

  /** `RelPath::with_file_name`. */
  function WithFileName(p: string, name: string): Option<string> {
    match Parent(p)
    case Some(parent) => Child(parent, name)
    case None => Parse(name)
  }

  lemma SplitPath(p: string)
    ensures Parent(p).Some? ==> Split(p) == Split(Parent(p).value) + [FileName(p)]
    ensures Parent(p).None? ==> Split(p) == [FileName(p)]
  {
    if Parent(p).Some? {
      assert p == Parent(p).value + "/" + FileName(p);
      SplitSlash(Parent(p).value, FileName(p));
    } else {
      assert p == FileName(p);
    }
  }

  /** A path with the same directory and another name. */
  function Beside(p: string, name: string): string { p[..NameStart(p)] + name }

  lemma BesideKeepsTheDirectory(p: string, name: string)
    requires '/' !in name
    ensures FileName(Beside(p, name)) == name
    ensures Parent(Beside(p, name)) == Parent(p)
    ensures forall d :: Inside(Beside(p, name), d) <==> Inside(p, d)
  {
    var copy := Beside(p, name);
    NameStartIs(copy, NameStart(p));
    if NameStart(p) > 0 {
      assert copy[..NameStart(p) - 1] == p[..NameStart(p) - 1];
    }
    forall d ensures Inside(copy, d) <==> Inside(p, d) {
      if |d| < NameStart(p) {
        assert copy[..|d|] == p[..|d|] && copy[|d|] == p[|d|];
      }
    }
  }

  lemma BesideIsValid(p: string, name: string)
    requires ValidPath(p) && ValidName(name)
    ensures ValidPath(Beside(p, name))
  {
    var copy := Beside(p, name);
    BesideKeepsTheDirectory(p, name);
    SplitPath(p);
    SplitPath(copy);
    forall s | s in Split(copy) ensures ValidName(s) {
      if s != name { assert s in Split(p); }
    }
  }

  /** Giving a valid path another valid name always works: the result is the path beside it. */
  lemma WithFileNameIsBeside(p: string, name: string)
    requires ValidPath(p) && ValidName(name)
    ensures WithFileName(p, name) == Some(Beside(p, name))
  {
    hide ValidPath, ValidName, Parse, NameStart;
    BesideIsValid(p, name);
    ParseRoundTrip(Beside(p, name));
    BesideIsUnderTheParent(p, name);
  }

  lemma BesideIsUnderTheParent(p: string, name: string)
    ensures Beside(p, name) == if Parent(p).Some? then Parent(p).value + "/" + name else name
  {
    if Parent(p).Some? { assert Parent(p).value + "/" == p[..NameStart(p)]; }
  }

  lemma NameStartIs(p: string, at: nat)
    requires at <= |p| && (at > 0 ==> p[at - 1] == '/')
    requires forall i :: at <= i < |p| ==> p[i] != '/'
    ensures NameStart(p) == at
  {
  }
}

/**
  Names the synced folder cannot hold: `unfit` of crates/client/src/sync/fit.rs, and what
  `sync_once` (crates/client/src/sync/engine.rs) leaves out of a pass before it reconciles.

  Unicode normalisation with lower-casing is a parameter, `fold`; so is the test for the files
  operating systems leave behind, `hidden`.
 */
module Fit {
  import opened Results
  import opened Paths
  import opened ConflictNames
  import opened Planning
  import opened Engine
  import opened NoLoss

  datatype Rules = Rules(windowsNames: bool, foldsCase: bool)

  // ---------- names Windows holds ----------

  predicate Forbidden(c: char) { c in {'<', '>', ':', '"', '|', '?', '*'} }

  function Lower(c: char): char { if 'A' <= c <= 'Z' then (c as int + 32) as char else c }

  /** ASCII letters only: no other character lower-cases to a letter of a device name. */
  function Lowered(s: string): (l: string)
    ensures |l| == |s| && forall i :: 0 <= i < |s| ==> l[i] == Lower(s[i])
  {
    seq(|s|, i requires 0 <= i < |s| => Lower(s[i]))
  }

  predicate EndsWith(s: string, tail: string) { |tail| <= |s| && s[|s| - |tail|..] == tail }

  function Byte(n: nat): char
    requires n < 256
  {
    n as char
  }

  /** How many bytes the white space a string ends with takes, if it ends with any. */
  function LastSpace(s: string): (n: nat)
    ensures n <= |s|
  {
    if s == "" then 0
    else
      var last := s[|s| - 1];
      if last == ' ' || Byte(0x09) <= last <= Byte(0x0D) then 1
      else if EndsWith(s, [Byte(0xC2), Byte(0x85)]) || EndsWith(s, [Byte(0xC2), Byte(0xA0)]) then 2
      else if || EndsWith(s, [Byte(0xE1), Byte(0x9A), Byte(0x80)])
              || EndsWith(s, [Byte(0xE2), Byte(0x81), Byte(0x9F)])
              || EndsWith(s, [Byte(0xE3), Byte(0x80), Byte(0x80)])
              || (|s| >= 3 && s[|s| - 3..|s| - 1] == [Byte(0xE2), Byte(0x80)] &&
                  (Byte(0x80) <= last <= Byte(0x8A) || last == Byte(0xA8) || last == Byte(0xA9) || last == Byte(0xAF))) then 3
      else 0
  }

  function TrimEnd(s: string): string {
    if LastSpace(s) == 0 then s else TrimEnd(s[..|s| - LastSpace(s)])
  }

  /** What comes before the first dot. */
  function BeforeDot(s: string): string {
    if s == "" || s[0] == '.' then "" else [s[0]] + BeforeDot(s[1..])
  }

  predicate ReservedDevice(stem: string) {
    || stem in {"con", "prn", "aux", "nul"}
    || (|stem| == 4 && stem[..3] in {"com", "lpt"} && '1' <= stem[3] <= '9')
  }

  predicate WindowsHolds(name: string) {
    && (forall c | c in name :: !Forbidden(c))
    && !EndsWith(name, ".") && !EndsWith(name, " ")
    && !ReservedDevice(Lowered(TrimEnd(BeforeDot(name))))
  }

  predicate WindowsHoldsPath(path: string) {
    forall name | name in Split(path) :: WindowsHolds(name)
  }

  // ---------- which names those are ----------

  /** The devices whose names Windows reserves. */
  ghost predicate Device(name: string) {
    || name in {"con", "prn", "aux", "nul"}
    || exists kind, digit :: kind in {"com", "lpt"} && '1' <= digit <= '9' && name == kind + [digit]
  }

  /** The same letters, each in either case. */
  predicate Spells(s: string, plain: string) {
    |s| == |plain| && forall i :: 0 <= i < |s| ==> s[i] == plain[i] || ('a' <= plain[i] <= 'z' && s[i] as int + 32 == plain[i] as int)
  }

  /** The UTF-8 encoding of one character of white space. */
  predicate OneSpace(s: string) {
    match |s|
    case 1 => s[0] == ' ' || Byte(0x09) <= s[0] <= Byte(0x0D)
    case 2 => s[0] == Byte(0xC2) && (s[1] == Byte(0x85) || s[1] == Byte(0xA0))
    case 3 =>
      || (s[0] == Byte(0xE1) && s[1] == Byte(0x9A) && s[2] == Byte(0x80))
      || (s[0] == Byte(0xE2) && s[1] == Byte(0x80) && (Byte(0x80) <= s[2] <= Byte(0x8A) || s[2] == Byte(0xA8) || s[2] == Byte(0xA9) || s[2] == Byte(0xAF)))
      || (s[0] == Byte(0xE2) && s[1] == Byte(0x81) && s[2] == Byte(0x9F))
      || (s[0] == Byte(0xE3) && s[1] == Byte(0x80) && s[2] == Byte(0x80))
    case _ => false
  }

  ghost predicate Blank(s: string)
    decreases |s|
  {
    s == "" || exists n :: 0 <= n < |s| && OneSpace(s[n..]) && Blank(s[..n])
  }

  /** A device, perhaps followed by white space, perhaps with anything after a dot. */
  ghost predicate NamesADevice(name: string) {
    exists device, blank, tail :: IsDevice(name, device, blank, tail)
  }

  ghost predicate IsDevice(name: string, device: string, blank: string, tail: string) {
    && name == device + blank + tail
    && (exists plain :: Device(plain) && Spells(device, plain))
    && Blank(blank) && '.' !in blank && (tail == "" || tail[0] == '.')
  }

  lemma EndsWithTwo(s: string, a: char, b: char)
    ensures EndsWith(s, [a, b]) <==> |s| >= 2 && s[|s| - 2] == a && s[|s| - 1] == b
  {
    assert |s| >= 2 ==> s[|s| - 2..] == [s[|s| - 2], s[|s| - 1]];
  }

  lemma EndsWithThree(s: string, a: char, b: char, c: char)
    ensures EndsWith(s, [a, b, c]) <==> |s| >= 3 && s[|s| - 3] == a && s[|s| - 2] == b && s[|s| - 1] == c
  {
    assert |s| >= 3 ==> s[|s| - 3..] == [s[|s| - 3], s[|s| - 2], s[|s| - 1]];
  }

  lemma LastSpaceByBytes(s: string)
    ensures LastSpace(s) == if |s| >= 1 && OneSpace(s[|s| - 1..]) then 1 else if |s| >= 2 && OneSpace(s[|s| - 2..]) then 2
                            else if |s| >= 3 && OneSpace(s[|s| - 3..]) then 3 else 0
  {
    hide EndsWith;
    EndsWithTwo(s, Byte(0xC2), Byte(0x85));
    EndsWithTwo(s, Byte(0xC2), Byte(0xA0));
    EndsWithThree(s, Byte(0xE1), Byte(0x9A), Byte(0x80));
    EndsWithThree(s, Byte(0xE2), Byte(0x81), Byte(0x9F));
    EndsWithThree(s, Byte(0xE3), Byte(0x80), Byte(0x80));
    assert |s| >= 3 ==> s[|s| - 3..|s| - 1] == [s[|s| - 3], s[|s| - 2]];
  }

  lemma OneSpaceIsShort(s: string, n: nat)
    requires n < |s| && OneSpace(s[n..])
    ensures |s| - 3 <= n
    ensures forall m :: n < m < |s| ==> !OneSpace(s[m..])
  {
    forall m | n < m < |s| ensures !OneSpace(s[m..]) { assert s[m..] == s[n..][m - n..]; }
  }

  lemma LastSpaceHolds(s: string)
    ensures LastSpace(s) > 0 ==> OneSpace(s[|s| - LastSpace(s)..])
    ensures forall n :: 0 <= n < |s| && OneSpace(s[n..]) ==> LastSpace(s) == |s| - n
  {
    hide OneSpace, LastSpace;
    LastSpaceByBytes(s);
    forall n | 0 <= n < |s| && OneSpace(s[n..]) ensures LastSpace(s) == |s| - n {
      OneSpaceIsShort(s, n);
    }
  }

  lemma {:induction false} TrimEndLeavesBlank(s: string)
    ensures TrimEnd(s) <= s && Blank(s[|TrimEnd(s)|..])
  {
    hide OneSpace, LastSpace;
    LastSpaceHolds(s);
    if LastSpace(s) > 0 {
      var rest := s[..|s| - LastSpace(s)];
      TrimEndLeavesBlank(rest);
      var blank, n := s[|TrimEnd(s)|..], |rest| - |TrimEnd(s)|;
      assert blank[..n] == rest[|TrimEnd(s)|..] && blank[n..] == s[|rest|..];
    }
  }

  lemma {:induction false} BlankIsTrimmed(s: string, blank: string)
    requires LastSpace(s) == 0 && Blank(blank)
    ensures TrimEnd(s + blank) == s
    decreases |blank|
  {
    hide OneSpace, LastSpace;
    if blank == "" {
      assert s + blank == s;
    } else {
      var n :| 0 <= n < |blank| && OneSpace(blank[n..]) && Blank(blank[..n]);
      assert (s + blank)[|s| + n..] == blank[n..] && (s + blank)[..|s| + n] == s + blank[..n];
      LastSpaceHolds(s + blank);
      BlankIsTrimmed(s, blank[..n]);
    }
  }

  lemma {:induction false} BeforeDotHolds(s: string)
    ensures BeforeDot(s) <= s && '.' !in BeforeDot(s)
    ensures s == BeforeDot(s) || s[|BeforeDot(s)|] == '.'
  {
    if s != "" && s[0] != '.' { BeforeDotHolds(s[1..]); }
  }

  lemma {:induction false} BeforeDotOf(s: string, tail: string)
    requires '.' !in s && (tail == "" || tail[0] == '.')
    ensures BeforeDot(s + tail) == s
  {
    if s == "" {
      assert s + tail == tail;
    } else {
      assert (s + tail)[1..] == s[1..] + tail;
      BeforeDotOf(s[1..], tail);
    }
  }

  predicate LettersAndDigits(s: string) { forall i :: 0 <= i < |s| ==> 'a' <= s[i] <= 'z' || '0' <= s[i] <= '9' }

  lemma DevicesAreReserved(plain: string)
    ensures Device(plain) <==> ReservedDevice(plain)
    ensures Device(plain) ==> LettersAndDigits(plain) && plain != ""
  {
    if ReservedDevice(plain) && |plain| == 4 { assert plain == plain[..3] + [plain[3]]; }
    if kind, digit :| kind in {"com", "lpt"} && '1' <= digit <= '9' && plain == kind + [digit] { assert plain[..3] == kind; }
  }

  lemma SpelledIsLowered(s: string, plain: string)
    requires LettersAndDigits(plain)
    ensures Spells(s, plain) <==> Lowered(s) == plain
  {
  }

  lemma DeviceIsReserved(device: string)
    ensures (exists plain :: Device(plain) && Spells(device, plain)) <==> ReservedDevice(Lowered(device))
    ensures ReservedDevice(Lowered(device)) ==> LastSpace(device) == 0 && '.' !in device
  {
    hide ReservedDevice, Device, Spells;
    forall plain ensures Device(plain) && Spells(device, plain) <==> Device(plain) && Lowered(device) == plain {
      DevicesAreReserved(plain);
      if Device(plain) { SpelledIsLowered(device, plain); }
    }
    DevicesAreReserved(Lowered(device));
    if ReservedDevice(Lowered(device)) { NoSpaceAtTheEnd(device); }
  }

  lemma NoSpaceAtTheEnd(s: string)
    requires s != "" && LettersAndDigits(Lowered(s))
    ensures LastSpace(s) == 0 && '.' !in s
  {
    forall i | 0 <= i < |s| ensures s[i] != '.' && (('0' <= s[i] <= '9') || ('A' <= s[i] <= 'Z') || ('a' <= s[i] <= 'z')) {
      assert Lowered(s)[i] == Lower(s[i]);
    }
    hide LastSpace;
    LastSpaceByBytes(s);
  }

  /**
    The names Windows refuses: with a character it forbids, ending in a dot or a space, or naming a
    device, in whatever case, whether alone, before white space or before a dot and anything.
   */
  lemma WindowsRefuses(name: string)
    ensures !WindowsHolds(name) <==>
            || (exists c :: c in name && c in "<>:\"|?*")
            || (name != "" && name[|name| - 1] in ". ")
            || NamesADevice(name)
  {
    hide TrimEnd, BeforeDot, LastSpace, OneSpace, ReservedDevice, Device, Blank, Spells;
    var stem := BeforeDot(name);
    BeforeDotHolds(name);
    TrimEndLeavesBlank(stem);
    DeviceIsReserved(TrimEnd(stem));
    if ReservedDevice(Lowered(TrimEnd(stem))) {
      var device, blank, tail := TrimEnd(stem), stem[|TrimEnd(stem)|..], name[|stem|..];
      assert device + blank == stem;
      assert IsDevice(name, device, blank, tail);
    }
    if device, blank, tail :| IsDevice(name, device, blank, tail) {
      DeviceIsReserved(device);
      BeforeDotOf(device + blank, tail);
      BlankIsTrimmed(device, blank);
    }
  }

  // ---------- the paths a pass leaves alone ----------

  /** A path of its own the folder cannot hold, and why it cannot. */
  predicate UnfitItself(local: set<string>, remote: set<string>, rules: Rules, fold: string -> string, p: string) {
    || (rules.windowsNames && p in remote && !WindowsHoldsPath(p))
    || (rules.foldsCase && p in local + remote &&
        exists q | q in local + remote :: q != p && fold(q) == fold(p))
  }

  /** `unfit`: those paths, and everything of either side inside one of them. */
  function Unfit(local: set<string>, remote: set<string>, rules: Rules, fold: string -> string): (r: set<string>)
    ensures forall p :: p in r <==>
              p in local + remote &&
              (UnfitItself(local, remote, rules, fold, p) ||
               exists f :: f in local + remote && UnfitItself(local, remote, rules, fold, f) && Inside(p, f))
  {
    var folders := set p | p in local + remote && UnfitItself(local, remote, rules, fold, p);
    folders + set p | p in local + remote && exists f | f in folders :: Inside(p, f)
  }

  /** What the folder cannot hold in its own right: a listed path with a name Windows refuses, or one of two spellings of a name. */
  ghost predicate CannotBeHeld(local: set<string>, remote: set<string>, rules: Rules, fold: string -> string, p: string) {
    || (rules.windowsNames && p in remote && exists name :: name in Split(p) && !WindowsHolds(name))
    || (rules.foldsCase && p in local + remote && exists q :: q in local + remote && q != p && fold(q) == fold(p))
  }

  /** What is unfit, in segments: exactly what cannot be held, and what is further inside something that cannot. */
  lemma UnfitExactly(local: set<string>, remote: set<string>, rules: Rules, fold: string -> string, p: string)
    ensures p in Unfit(local, remote, rules, fold) <==>
              p in local + remote && exists d :: d in local + remote && Split(d) <= Split(p) && CannotBeHeld(local, remote, rules, fold, d)
  {
    hide WindowsHolds, Split;
    forall d ensures Inside(p, d) <==> Split(d) < Split(p) { InsideIsAProperPrefixOfSegments(p, d); }
    forall d | Split(d) == Split(p) ensures d == p {
      JoinSplit(d);
      JoinSplit(p);
    }
  }

  /** The first loop of `unfit`: remote paths with a name Windows refuses. */
  method FindRefused(remote: set<string>) returns (refused: set<string>)
    ensures refused == set p | p in remote && !WindowsHoldsPath(p)
  {
    refused := {};
    var keys := Ordered(remote);
    for i := 0 to |keys|
      invariant refused == set p | p in keys[..i] && !WindowsHoldsPath(p)
    {
      assert keys[..i + 1] == keys[..i] + [keys[i]];
      if !WindowsHoldsPath(keys[i]) { refused := refused + {keys[i]}; }
    }
    assert keys[..|keys|] == keys;
  }

  predicate Clashes(all: set<string>, fold: string -> string, p: string) {
    p in all && exists q | q in all :: q != p && fold(q) == fold(p)
  }

  ghost predicate Filed(spellings: map<string, set<string>>, keys: seq<string>, fold: string -> string) {
    && (forall p :: p in keys ==> fold(p) in spellings && p in spellings[fold(p)])
    && (forall k, p :: k in spellings && p in spellings[k] ==> p in keys && fold(p) == k)
  }

  /** The second: every path is filed under its folded spelling, */
  method FileSpellings(keys: seq<string>, fold: string -> string) returns (spellings: map<string, set<string>>)
    ensures Filed(spellings, keys, fold)
  {
    spellings := map[];
    for i := 0 to |keys|
      invariant Filed(spellings, keys[..i], fold)
    {
      assert keys[..i + 1] == keys[..i] + [keys[i]];
      var key := fold(keys[i]);
      var sofar := if key in spellings then spellings[key] else {};
      spellings := spellings[key := sofar + {keys[i]}];
    }
    assert keys[..|keys|] == keys;
  }

  /** and the spellings several paths share clash. */
  method FindClashes(all: set<string>, fold: string -> string) returns (clashing: set<string>)
    ensures clashing == set p | p in all && Clashes(all, fold, p)
  {
    var keys := Ordered(all);
    var spellings := FileSpellings(keys, fold);
    clashing := {};
    for i := 0 to |keys|
      invariant clashing == set p | p in keys[..i] && Clashes(all, fold, p)
    {
      assert keys[..i + 1] == keys[..i] + [keys[i]];
      var p := keys[i];
      SharedSpelling(all, keys, spellings, fold, p);
      if spellings[fold(p)] != {p} { clashing := clashing + {p}; }
    }
    assert keys[..|keys|] == keys;
  }

  lemma SharedSpelling(all: set<string>, keys: seq<string>, spellings: map<string, set<string>>, fold: string -> string, p: string)
    requires (forall k :: k in keys <==> k in all) && Filed(spellings, keys, fold) && p in all
    ensures fold(p) in spellings && (spellings[fold(p)] != {p} <==> Clashes(all, fold, p))
  {
    assert p in keys;
    if spellings[fold(p)] != {p} {
      var q :| q in spellings[fold(p)] && q != p;
      assert q in keys && fold(q) == fold(p);
    }
    if Clashes(all, fold, p) {
      var q :| q in all && q != p && fold(q) == fold(p);
      assert q in keys && q in spellings[fold(q)];
    }
  }

  /** The third: whatever lies inside one of the folders found so far. */
  method AddInside(folders: set<string>, all: set<string>) returns (unfit: set<string>)
    ensures unfit == folders + set p | p in all && exists f | f in folders :: Inside(p, f)
  {
    unfit := folders;
    var keys := Ordered(all);
    for i := 0 to |keys|
      invariant unfit == folders + set p | p in keys[..i] && exists f | f in folders :: Inside(p, f)
    {
      assert keys[..i + 1] == keys[..i] + [keys[i]];
      if exists f | f in folders :: Inside(keys[i], f) { unfit := unfit + {keys[i]}; }
    }
    assert keys[..|keys|] == keys;
  }

  /** `unfit`, loop after loop. */
  method FindUnfit(local: set<string>, remote: set<string>, rules: Rules, fold: string -> string) returns (unfit: set<string>)
    ensures unfit == Unfit(local, remote, rules, fold)
  {
    unfit := {};
    if rules.windowsNames { unfit := FindRefused(remote); }
    if rules.foldsCase {
      var clashing := FindClashes(local + remote, fold);
      unfit := unfit + clashing;
    }
    assert unfit == set p | p in local + remote && UnfitItself(local, remote, rules, fold, p);
    unfit := AddInside(unfit, local + remote);
  }

  // ---------- what is left ----------

  function Only(s: Snapshot, left: set<string>): (r: Snapshot)
    ensures forall p :: p in r <==> p in s && p !in left
    ensures forall p :: p in r ==> r[p] == s[p]
  {
    s - left
  }

  /** What `sync_once` reconciles, given both sides and the recorded base in full. */
  function Fitting(whole: Merge, rules: Rules, fold: string -> string, hidden: string -> bool): (m: Merge)
    ensures m.stamp == whole.stamp
  {
    var left := LeftAlone(whole, rules, fold, hidden);
    Merge(Only(whole.local, left), Only(Listed(whole, hidden), left), Only(whole.base, left), whole.stamp)
  }

  /** What is hidden is hidden with everything inside it, as a test of each segment makes it. */
  ghost predicate HidesWhole(hidden: string -> bool) {
    forall p, d :: Inside(p, d) && hidden(d) ==> hidden(p)
  }

  function Listed(whole: Merge, hidden: string -> bool): Snapshot {
    map p | p in whole.remote && !hidden(p) :: whole.remote[p]
  }

  function LeftAlone(whole: Merge, rules: Rules, fold: string -> string, hidden: string -> bool): set<string> {
    Unfit(whole.local.Keys, Listed(whole, hidden).Keys, rules, fold)
  }

  /** Both sides still have every directory above what they hold. */
  lemma FittingIsClosed(whole: Merge, rules: Rules, fold: string -> string, hidden: string -> bool)
    requires Closed(whole.local) && Closed(whole.remote) && HidesWhole(hidden)
    ensures Closed(Fitting(whole, rules, fold, hidden).local) && Closed(Fitting(whole, rules, fold, hidden).remote)
  {
    hide UnfitItself, Unfit;
    var left := LeftAlone(whole, rules, fold, hidden);
    forall p, d | p in whole.local.Keys + Listed(whole, hidden).Keys && Inside(p, d) && d in left ensures p in left {
      UnfitReachesInside(whole.local.Keys, Listed(whole, hidden).Keys, rules, fold, p, d);
    }
  }

  /** No two remaining paths, on whichever side, fold together, and every remaining server path is one Windows can hold. */
  lemma FittingFits(whole: Merge, rules: Rules, fold: string -> string, hidden: string -> bool, p: string, q: string)
    requires var m := Fitting(whole, rules, fold, hidden);
             p in m.local.Keys + m.remote.Keys && q in m.local.Keys + m.remote.Keys
    ensures rules.windowsNames && p in Fitting(whole, rules, fold, hidden).remote ==> WindowsHoldsPath(p)
    ensures rules.foldsCase && p != q ==> fold(p) != fold(q)
  {
    hide WindowsHoldsPath;
  }

  lemma UnfitReachesInside(local: set<string>, remote: set<string>, rules: Rules, fold: string -> string, p: string, d: string)
    requires p in local + remote && Inside(p, d) && d in Unfit(local, remote, rules, fold)
    ensures p in Unfit(local, remote, rules, fold)
  {
    if !UnfitItself(local, remote, rules, fold, d) {
      var f :| f in local + remote && UnfitItself(local, remote, rules, fold, f) && Inside(d, f);
      InsideTransitive(p, d, f);
    }
  }

  /** No action has an unfit path for its subject. */
  lemma SubjectsFit(whole: Merge, rules: Rules, fold: string -> string, hidden: string -> bool, a: Action)
    requires IsStamp(whole.stamp)
    requires a in PlanOf(Fitting(whole, rules, fold, hidden)).actions
    ensures a.path !in LeftAlone(whole, rules, fold, hidden)
  {
    var m := Fitting(whole, rules, fold, hidden);
    PlanHolds(m, a);
    ActionKeepsItsPath(m, a.path);
  }

  // ---------- what happens to what is left alone ----------

  /** A step that changes nothing of the server at `x`; nor, if `x` is there, does one that wants it absent. */
  ghost predicate Spares(step: Step, x: string) {
    match step
    case RemoveRemote(q) => x != q && !Inside(x, q)
    case Put(q, wanted) => (q != x || wanted == Absent) && !Inside(q, x)
    case MakeRemoteDirectory(q) => q != x && !Inside(q, x)
    case _ => true
  }

  lemma {:induction false} SparedStaysAsItIs(w: World, steps: seq<Step>, x: string)
    requires forall i :: 0 <= i < |steps| ==> Spares(steps[i], x)
    requires x in w.remote || forall i :: 0 <= i < |steps| && steps[i].Put? ==> steps[i].path != x
    ensures Get(Carry(w, steps).remote, x) == Get(w.remote, x)
    decreases steps
  {
    if steps != [] && Perform(w, steps[0]).Some? {
      SparedStaysAsItIs(Perform(w, steps[0]).value, steps[1..], x);
    }
  }

  lemma PerformKeepsClosed(w: World, step: Step)
    requires Closed(w.remote) && Perform(w, step).Some?
    ensures Closed(Perform(w, step).value.remote)
  {
    var after := Perform(w, step).value;
    if step.RemoveRemote? {
      forall p, d | p in after.remote && Inside(p, d) ensures d in after.remote && after.remote[d].Directory? {
        if Inside(d, step.path) { InsideTransitive(p, d, step.path); }
      }
    } else if step.Put? || step.MakeRemoteDirectory? {
      forall p, d | p in after.remote && Inside(p, d) ensures d in after.remote && after.remote[d].Directory? {
        AddingKeepsClosed(w, step, after, p, d);
      }
    }
  }

  lemma AddingKeepsClosed(w: World, step: Step, after: World, p: string, d: string)
    requires Closed(w.remote) && Perform(w, step) == Some(after) && (step.Put? || step.MakeRemoteDirectory?)
    requires p in after.remote && Inside(p, d)
    ensures d in after.remote && after.remote[d].Directory?
  {
    var path := step.path;
    if p !in w.remote && p != path { InsideTransitive(path, p, d); }
  }

  lemma {:induction false} CarryKeepsClosed(w: World, steps: seq<Step>)
    requires Closed(w.remote)
    ensures Closed(Carry(w, steps).remote)
    decreases steps
  {
    hide Closed, Perform;
    if steps != [] && Perform(w, steps[0]).Some? {
      PerformKeepsClosed(w, steps[0]);
      CarryKeepsClosed(Perform(w, steps[0]).value, steps[1..]);
    }
  }

  /**
    A whole folder and server, as a pass meets them: trees of valid paths, hidden names left
    out of the scan, and conflict copies that take no name the server already uses.
   */
  ghost predicate Setting(whole: Merge, rules: Rules, fold: string -> string, hidden: string -> bool) {
    && IsStamp(whole.stamp)
    && Closed(whole.local) && Closed(whole.remote) && HidesWhole(hidden)
    && (forall p :: p in whole.local ==> !hidden(p))
    && (forall p :: p in whole.Paths() ==> ValidPath(p))
  }

  /** Something of the server's this pass does not see. */
  ghost predicate Unseen(whole: Merge, rules: Rules, fold: string -> string, hidden: string -> bool, x: string) {
    x in whole.remote && x !in Fitting(whole, rules, fold, hidden).remote
  }

  /** Nothing the pass handles has an unseen path for a directory above it. */
  lemma NothingSeenInside(whole: Merge, rules: Rules, fold: string -> string, hidden: string -> bool, x: string, p: string)
    requires Setting(whole, rules, fold, hidden) && Unseen(whole, rules, fold, hidden, x)
    requires p in Fitting(whole, rules, fold, hidden).local
    ensures p != x && !Inside(p, x)
  {
    hide UnfitItself, Unfit, Merge.ActionFor;
    var listed := Listed(whole, hidden);
    var left := LeftAlone(whole, rules, fold, hidden);
    assert x in listed ==> x in left;
    if Inside(p, x) {
      assert x in whole.local;
      if x in left { UnfitReachesInside(whole.local.Keys, listed.Keys, rules, fold, p, x); }
    }
  }

  ghost predicate Uproots(a: Action, x: string) {
    a.RemoveRemoteDirectory? && Inside(x, a.path)
  }

  lemma WhatAsksForIt(m: Merge, a: Action)
    requires IsStamp(m.stamp) && m.ActionFor(a.path) == Some(a)
    ensures a.Upload? || a.CreateRemoteDirectory? || a.KeepBoth? ==> a.path in m.local
    ensures a.DeleteRemote? ==> a.path in m.remote && m.remote[a.path].File?
    ensures a.RemoveRemoteDirectory? ==> a.path in m.remote
    ensures a.KeepBoth? && ValidPath(a.path) ==> forall d :: Inside(a.localCopy, d) <==> Inside(a.path, d)
    ensures !a.SetAside?
  {
    hide HoldsOnlyWhatWasSynced, ConflictName, WithFileName, ValidPath;
    if a.KeepBoth? && ValidPath(a.path) { ConflictCopyExists(a.path, m.stamp); }
  }

  /** Where a copy has the name, no folder above goes: the file it is a copy of is new to it. */
  lemma CopiesAreNotUprooted(whole: Merge, rules: Rules, fold: string -> string, hidden: string -> bool, p: string, x: string, a: Action)
    requires Setting(whole, rules, fold, hidden)
    requires var m := Fitting(whole, rules, fold, hidden); CopiedTo(m, p, x) && Sanctioned(m, a)
    ensures !Uproots(a, x)
  {
    hide Unfit, Merge.ActionFor, ValidPath, IsStamp, HidesWhole;
    var m := Fitting(whole, rules, fold, hidden);
    CopiedWasChanged(m, p, x);
    FittingIsClosed(whole, rules, fold, hidden);
    CopyIsBeside(m, p, x);
    RemovalAsked(m, a.path);
  }

  /** What an uprooting took is not put back. */
  lemma NotPutBack(whole: Merge, rules: Rules, fold: string -> string, hidden: string -> bool, x: string, done: seq<Action>, a: Action, seen: Listing, i: nat)
    requires Setting(whole, rules, fold, hidden) && Unseen(whole, rules, fold, hidden, x) && UprootedBy(done, x)
    requires var m := Fitting(whole, rules, fold, hidden); Sanctioned(m, a) && forall b :: b in done ==> Sanctioned(m, b)
    requires i < |Steps(a, seen)| && Steps(a, seen)[i].Put?
    ensures Steps(a, seen)[i].path != x
  {
    hide Unfit, Merge.ActionFor, ValidPath, IsStamp, HidesWhole, Closed, Uproots;
    var m := Fitting(whole, rules, fold, hidden);
    var b :| b in done && Uproots(b, x);
    if a.KeepBoth? && a.localCopy == x {
      CopiesAreNotUprooted(whole, rules, fold, hidden, a.path, x, b);
    } else if !a.SetAside? {
      WhatAsksForIt(m, a);
      if a.path in m.local { NothingSeenInside(whole, rules, fold, hidden, x, a.path); }
    }
  }

  lemma UnseenIsSpared(whole: Merge, rules: Rules, fold: string -> string, hidden: string -> bool, x: string, a: Action, i: nat)
    requires Setting(whole, rules, fold, hidden) && Unseen(whole, rules, fold, hidden, x)
    requires var m := Fitting(whole, rules, fold, hidden);
             Sanctioned(m, a) && !Uproots(a, x) && i < |Steps(a, Listing(whole.local, m.remote))|
    ensures Spares(Steps(a, Listing(whole.local, Fitting(whole, rules, fold, hidden).remote))[i], x)
  {
    hide Unfit, Merge.ActionFor, ValidPath, IsStamp, HidesWhole;
    var m := Fitting(whole, rules, fold, hidden);
    if !a.SetAside? { WhatAsksForIt(m, a); }
    if a.path in m.local { NothingSeenInside(whole, rules, fold, hidden, x, a.path); }
    if a.DeleteRemote? { assert Get(whole.remote, a.path) == Get(m.remote, a.path); }
  }

  ghost predicate UprootedBy(actions: seq<Action>, x: string) {
    exists a :: a in actions && Uproots(a, x)
  }

  lemma {:induction false} UnseenFollows(whole: Merge, rules: Rules, fold: string -> string, hidden: string -> bool, x: string, actions: seq<Action>)
    requires Setting(whole, rules, fold, hidden) && Unseen(whole, rules, fold, hidden, x)
    requires var m := Fitting(whole, rules, fold, hidden);
             forall a :: a in actions ==> Sanctioned(m, a)
    ensures var m := Fitting(whole, rules, fold, hidden);
            var w := ApplyAll(World(whole.local, whole.remote, whole.base), actions, Listing(whole.local, m.remote));
            && Closed(w.remote)
            && Get(w.remote, x) == if UprootedBy(actions, x) then None else Some(whole.remote[x])
  {
    hide Merge.ActionFor, Unfit, Steps, Perform;
    var seen := Listing(whole.local, Fitting(whole, rules, fold, hidden).remote);
    var start := World(whole.local, whole.remote, whole.base);
    if actions != [] {
      var rest, last := actions[..|actions| - 1], actions[|actions| - 1];
      assert actions == rest + [last];
      UnseenFollows(whole, rules, fold, hidden, x, rest);
      var w := ApplyAll(start, rest, seen);
      CarryKeepsClosed(w, Steps(last, seen));
      if Uproots(last, x) {
        UprootingTakes(w, last, seen, x);
      } else {
        forall i | 0 <= i < |Steps(last, seen)| ensures Spares(Steps(last, seen)[i], x) {
          UnseenIsSpared(whole, rules, fold, hidden, x, last, i);
        }
        if x !in w.remote {
          forall i | 0 <= i < |Steps(last, seen)| && Steps(last, seen)[i].Put? ensures Steps(last, seen)[i].path != x {
            NotPutBack(whole, rules, fold, hidden, x, rest, last, seen, i);
          }
        }
        SparedStaysAsItIs(w, Steps(last, seen), x);
      }
    }
  }

  lemma UprootingTakes(w: World, a: Action, seen: Listing, x: string)
    requires Closed(w.remote) && Uproots(a, x)
    ensures x !in Apply(w, a, seen).remote
  {
    if a.path in w.remote {
      DeletesRemotely(w, a, seen);
    } else {
      assert Perform(w, RemoveRemote(a.path)) == None;
    }
  }

  /**
    A server entry the folder cannot hold, or does not sync, is meant to be left alone. It is,
    exactly when no folder above it is one the user removed here with everything the pass sees in
    it as it was synced: then the folder goes, and the server's recursive delete takes the entry
    along.
   */
  lemma UnseenSurvivesUnlessItsFolderGoes(whole: Merge, rules: Rules, fold: string -> string, hidden: string -> bool, x: string)
    requires Setting(whole, rules, fold, hidden) && Unseen(whole, rules, fold, hidden, x)
    ensures var m := Fitting(whole, rules, fold, hidden);
            var w := ApplyAll(World(whole.local, whole.remote, whole.base), PlanOf(m).actions, Listing(whole.local, m.remote));
            Get(w.remote, x) == Some(whole.remote[x]) <==>
            !exists d :: Inside(x, d)
                         && Get(m.remote, d) == Some(Directory) && d !in m.local && d in m.base
                         && forall p :: p in m.remote && Inside(p, d) ==> Get(m.base, p) == Some(m.remote[p])
  {
    hide Merge.ActionFor, PlanOf, Unfit, Fitting;
    var m := Fitting(whole, rules, fold, hidden);
    var actions := PlanOf(m).actions;
    forall a | a in actions ensures m.ActionFor(a.path) == Some(a) { PlanHolds(m, a); }
    UnseenFollows(whole, rules, fold, hidden, x, actions);
    forall d ensures RemoveRemoteDirectory(d) in actions <==>
                       && Get(m.remote, d) == Some(Directory) && d !in m.local && d in m.base
                       && forall p :: p in m.remote && Inside(p, d) ==> Get(m.base, p) == Some(m.remote[p])
    {
      PlanHolds(m, RemoveRemoteDirectory(d));
      RemovalAsked(m, d);
    }
    assert forall a :: a in actions && Uproots(a, x) ==> a == RemoveRemoteDirectory(a.path);
    assert forall d :: Inside(x, d) ==> Uproots(RemoveRemoteDirectory(d), x);
  }

  // ---------- server files that go with their folder ----------

  const FOLDER := "d"
  const ONE := "d/x"
  const OTHER := "d/X"

  predicate NothingHidden(path: string) { false }

  /** A folder synced here and then removed here, to which another machine added two names that differ only in case. */
  function TwoSpellings(stamp: string): Merge {
    var base := map[FOLDER := Directory];
    Merge(map[], base[ONE := File("1", 1)][OTHER := File("2", 1)], base, stamp)
  }

  lemma PathsOfTheExample()
    ensures ValidPath(FOLDER) && ValidPath(ONE) && ValidPath(OTHER)
    ensures FOLDER != ONE && FOLDER != OTHER && ONE != OTHER
    ensures forall d :: !Inside(FOLDER, d) && (Inside(ONE, d) <==> d == FOLDER) && (Inside(OTHER, d) <==> d == FOLDER)
    ensures Lowered(ONE) == Lowered(OTHER) && Lowered(FOLDER) != Lowered(ONE)
  {
    SplitSlash("d", "x");
    SplitSlash("d", "X");
    assert ONE == "d" + "/" + "x" && OTHER == "d" + "/" + "X";
    assert Split("d") == ["d"] && Split("x") == ["x"] && Split("X") == ["X"];
    assert |Lowered(FOLDER)| == 1 && |Lowered(ONE)| == 3;
  }

  lemma UnfitOfTheExample(remote: set<string>)
    requires remote == {FOLDER, ONE, OTHER}
    ensures Unfit({}, remote, Rules(false, true), Lowered) == {ONE, OTHER}
  {
    PathsOfTheExample();
    hide ValidPath, WindowsHoldsPath, Inside, Lowered;
    assert UnfitItself({}, remote, Rules(false, true), Lowered, ONE);
    assert UnfitItself({}, remote, Rules(false, true), Lowered, OTHER);
    assert !UnfitItself({}, remote, Rules(false, true), Lowered, FOLDER);
  }

  lemma FittingOfTheExample(stamp: string)
    ensures Fitting(TwoSpellings(stamp), Rules(false, true), Lowered, NothingHidden) ==
            Merge(map[], TwoSpellings(stamp).base, TwoSpellings(stamp).base, stamp)
  {
    var whole := TwoSpellings(stamp);
    PathsOfTheExample();
    UnfitOfTheExample(whole.remote.Keys);
    hide ValidPath, Inside, Unfit, Lowered;
    assert Listed(whole, NothingHidden) == whole.remote && whole.local.Keys == {};
    assert Only(whole.remote, {ONE, OTHER}) == whole.base == Only(whole.base, {ONE, OTHER});
    assert Only(whole.local, {ONE, OTHER}) == map[];
  }

  lemma NothingToCopy(m: Merge, p: string, c: string)
    requires IsStamp(m.stamp) && p !in m.local
    ensures !CopiedTo(m, p, c)
  {
  }

  lemma SettingOfTheExample(stamp: string)
    requires IsStamp(stamp)
    ensures Setting(TwoSpellings(stamp), Rules(false, true), Lowered, NothingHidden)
  {
    PathsOfTheExample();
    FittingOfTheExample(stamp);
    hide ValidPath, Merge.ActionFor, Fitting, Inside, Lowered, Unfit;
    var whole := TwoSpellings(stamp);
    var m := Fitting(whole, Rules(false, true), Lowered, NothingHidden);
    assert m.local == map[];
    forall p, c ensures !CopiedTo(m, p, c) { NothingToCopy(m, p, c); }
    assert whole.Paths() == {FOLDER, ONE, OTHER};
  }

  /** They go: the removal of the folder, planned from what fits, takes both along. */
  lemma TwoSpellingsGoWithTheirFolder(stamp: string)
    requires IsStamp(stamp)
    ensures var whole := TwoSpellings(stamp);
            var m := Fitting(whole, Rules(false, true), Lowered, NothingHidden);
            var w := ApplyAll(World(whole.local, whole.remote, whole.base), PlanOf(m).actions, Listing(whole.local, m.remote));
            ONE !in w.remote && OTHER !in w.remote
  {
    hide PlanOf, ApplyAll, Fitting, Setting, Merge.ActionFor;
    var whole := TwoSpellings(stamp);
    PathsOfTheExample();
    FittingOfTheExample(stamp);
    SettingOfTheExample(stamp);
    var m := Fitting(whole, Rules(false, true), Lowered, NothingHidden);
    forall a | a in PlanOf(m).actions ensures m.ActionFor(a.path) == Some(a) { PlanHolds(m, a); }
    PlanHolds(m, RemoveRemoteDirectory(FOLDER));
    RemovalAsked(m, FOLDER);
    assert Uproots(RemoveRemoteDirectory(FOLDER), ONE) && Uproots(RemoveRemoteDirectory(FOLDER), OTHER);
    UnseenFollows(whole, Rules(false, true), Lowered, NothingHidden, ONE, PlanOf(m).actions);
    UnseenFollows(whole, Rules(false, true), Lowered, NothingHidden, OTHER, PlanOf(m).actions);
  }
}

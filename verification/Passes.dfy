/**
  A whole pass: `sync_once` of crates/client/src/sync/engine.rs, which leaves out what the folder cannot
  hold and what is not synced, narrows the plan by the shares it is in, and carries it out.
 */
module Passes {
  import opened Results
  import opened Paths
  import opened ConflictNames
  import opened Planning
  import opened Engine
  import opened NoLoss
  import opened Sharing
  import opened Fit
  import opened Bystanders

  /** What the actions of a pass are carried out against: the whole scan, and the listing as filtered. */
  function SeenBy(whole: Merge, m: Merge): Listing { Listing(whole.local, m.remote) }

  function Whole(whole: Merge): World { World(whole.local, whole.remote, whole.base) }

  /** `sync_once`, from the two snapshots to the state it saves. */
  function WholePass(whole: Merge, rules: Rules, fold: string -> string, hidden: string -> bool, held: Held): World
    requires IsStamp(whole.stamp)
  {
    var m := Fitting(whole, rules, fold, hidden);
    RecordAgreed(ApplyAll(Whole(whole), held.Apply(PlanOf(m)).actions, SeenBy(whole, m)), SeenBy(whole, m))
  }

  method SyncOnce(engine: SyncEngine, rules: Rules, fold: string -> string, hidden: string -> bool, held: Held, stamp: string)
    requires IsStamp(stamp)
    modifies engine
    ensures engine.Now() == WholePass(Merge(old(engine.local), old(engine.remote), old(engine.tracked), stamp), rules, fold, hidden, held)
  {
    hide PlanOf, ApplyAll, RecordAgreed, Unfit, Held.Apply;
    ghost var whole := Merge(engine.local, engine.remote, engine.tracked, stamp);
    var scan := engine.local;
    var listed := map p | p in engine.remote && !hidden(p) :: engine.remote[p];
    var unfit := FindUnfit(scan.Keys, listed.Keys, rules, fold);
    var m := Merge(Only(scan, unfit), Only(listed, unfit), Only(engine.tracked, unfit), stamp);
    assert m == Fitting(whole, rules, fold, hidden);
    var plan := Reconcile(m);
    var narrowed := held.ApplyInTurn(plan);
    engine.ApplyEach(narrowed.actions, Listing(scan, m.remote));
    engine.RecordAgreedDirectories(Listing(scan, m.remote));
  }

  /** A pass that leaves nothing out and narrows nothing is the plain one. */
  lemma PlainPassIsThePass(whole: Merge, rules: Rules, fold: string -> string, hidden: string -> bool, held: Held)
    requires IsStamp(whole.stamp) && LeftAlone(whole, rules, fold, hidden) == {} && (forall p :: p in whole.remote ==> !hidden(p))
    requires held.Apply(PlanOf(whole)).actions == PlanOf(whole).actions
    ensures WholePass(whole, rules, fold, hidden, held) == Pass(whole)
  {
    hide PlanOf, Unfit;
    assert Listed(whole, hidden) == whole.remote;
    assert Fitting(whole, rules, fold, hidden) == whole;
  }

  // ---------- what a whole pass loses ----------

  /** The course of a pass: it merges what fits, starts from everything there is, and is held back by the shares. */
  function CourseOf(whole: Merge, rules: Rules, fold: string -> string, hidden: string -> bool, held: Held): (k: Course)
    requires IsStamp(whole.stamp)
    ensures k.m == Fitting(whole, rules, fold, hidden) && k.start == Whole(whole) && k.Seen() == SeenBy(whole, k.m) && k.rule == RuleOf(held, k.m)
  {
    var m := Fitting(whole, rules, fold, hidden);
    Course(m, Whole(whole), RuleOf(held, m))
  }

  /** The pass looks at some of what the two sides hold. */
  lemma FittingExtends(whole: Merge, rules: Rules, fold: string -> string, hidden: string -> bool, held: Held)
    requires IsStamp(whole.stamp)
    ensures Extends(CourseOf(whole, rules, fold, hidden, held))
  {
    hide Unfit, RuleOf;
  }

  /**
    No loss, for everything a pass looks at: whatever part of the narrowed plan was carried out, wherever
    each action was cut off, and whatever else the two sides hold.
   */
  lemma WholePassLosesNothing(whole: Merge, rules: Rules, fold: string -> string, hidden: string -> bool, held: Held, attempts: seq<Attempt>, p: string)
    requires IsStamp(whole.stamp) && Closed(whole.remote)
    requires var k := CourseOf(whole, rules, fold, hidden, held); !Clashing(k, true) && Narrowed(held, k.m, attempts)
    ensures var k := CourseOf(whole, rules, fold, hidden, held);
            var w := Attempted(k.start, attempts, k.Seen());
            && (ChangedLocally(k.m, p) ==> Survives(k.m, w, attempts, p))
            && (ChangedRemotely(k.m, p) ==> Get(w.remote, p) == Some(k.m.remote[p]))
  {
    hide Fitting, Clashing, Narrowed, Survives, Runnable, InTurn, Extends, AllObey, AllHeed, RuleOf;
    var k := CourseOf(whole, rules, fold, hidden, held);
    FittingExtends(whole, rules, fold, hidden, held);
    NarrowedAreRunnable(held, k.m, attempts);
    NarrowedObey(held, k.m, attempts);
    ObeyingIsHeeding(k.rule, attempts);
    WithoutAClashNothingIsLost(k, attempts, true, p);
  }

  lemma FittingSeesBothSides(whole: Merge, rules: Rules, fold: string -> string, hidden: string -> bool, held: Held)
    requires Setting(whole, rules, fold, hidden)
    ensures BothSides(CourseOf(whole, rules, fold, hidden, held))
  {
    hide UnfitItself, RuleOf, ValidPath, IsStamp;
    FittingIsClosed(whole, rules, fold, hidden);
    FittingExtends(whole, rules, fold, hidden, held);
  }

  /** A pass over the whole of both sides can lose something of what it looks at, cut off somewhere, exactly when a copy clashes. */
  lemma WholePassLosingTakesAClash(whole: Merge, rules: Rules, fold: string -> string, hidden: string -> bool, held: Held)
    requires Setting(whole, rules, fold, hidden)
    ensures IsStamp(whole.stamp)
    ensures var k := CourseOf(whole, rules, fold, hidden, held);
            (exists attempts, p :: NarrowedLoses(held, k, attempts, p)) <==> Clashing(k, true)
  {
    hide Setting, CourseOf, BothSides, Clashing, NarrowedLoses, Fitting;
    SettingStamp(whole, rules, fold, hidden);
    FittingSeesBothSides(whole, rules, fold, hidden, held);
    NarrowedLosingTakesAClash(held, CourseOf(whole, rules, fold, hidden, held));
  }

  // ---------- what it does not look at ----------

  /**
    A local entry a pass does not look at can be changed by it, cut off anywhere, exactly when it is a file
    and another content is set aside under its name. A folder stays, and so does a file of that content.
   */
  lemma UnseenLocalStays(whole: Merge, rules: Rules, fold: string -> string, hidden: string -> bool, held: Held, x: string)
    requires IsStamp(whole.stamp) && x in whole.local && x !in Fitting(whole, rules, fold, hidden).local
    ensures var k := CourseOf(whole, rules, fold, hidden, held);
            (exists attempts :: Changes(held, k, attempts, x)) <==> GetsAnother(k, x)
  {
    hide Unfit, Changes, GetsAnother, RuleOf, IsStamp;
    FittingExtends(whole, rules, fold, hidden, held);
    BystandersStay(held, CourseOf(whole, rules, fold, hidden, held), x);
  }

  // ---------- a file that a copy replaces ----------

  function CopyName(stamp: string): string { "a" + Suffix(stamp) }
  function OtherCase(stamp: string): string { "A" + Suffix(stamp) }

  const MINE := File("mine", 1)
  const THEIRS := File("theirs", 1)

  /** Both sides edited "a"; the folder holds a file `one`, which it leaves alone because the server has that name in another case. */
  function Bystander(one: string, other: string, stamp: string): Merge {
    Merge(map["a" := MINE, one := File("kept", 1)], map["a" := THEIRS, other := File("other", 1)], map[], stamp)
  }

  function Edited(stamp: string): Merge { Merge(map["a" := MINE], map["a" := THEIRS], map[], stamp) }

  ghost predicate SpelledAlike(one: string, other: string) {
    && one != other && "a" != one && "a" != other && Lowered(one) == Lowered(other) && Lowered("a") != Lowered(one)
    && forall d :: !Inside("a", d)
  }

  lemma NamesOfTheBystander(stamp: string)
    requires IsStamp(stamp)
    ensures SpelledAlike(CopyName(stamp), OtherCase(stamp))
  {
    SuffixBytes(stamp);
    var one, other := CopyName(stamp), OtherCase(stamp);
    assert one[0] == 'a' && other[0] == 'A' && |one| == |other| == 29;
    forall i | 0 <= i < 29 ensures Lowered(one)[i] == Lowered(other)[i] {
      if i > 0 { assert one[i] == Suffix(stamp)[i - 1] == other[i]; }
    }
    assert |Lowered("a")| == 1 && |Lowered(one)| == 29;
    forall d ensures !Inside("a", d) { }
  }

  lemma UnfitOfTheBystander(one: string, other: string)
    requires SpelledAlike(one, other)
    ensures Unfit({"a", one}, {"a", other}, Rules(false, true), Lowered) == {one, other}
  {
    hide Lowered, Inside, WindowsHoldsPath;
    assert UnfitItself({"a", one}, {"a", other}, Rules(false, true), Lowered, one);
    assert UnfitItself({"a", one}, {"a", other}, Rules(false, true), Lowered, other);
    assert !UnfitItself({"a", one}, {"a", other}, Rules(false, true), Lowered, "a");
  }

  lemma OneIsLeft(a: string, one: string, left: set<string>, kept: Entry, gone: Entry)
    requires a != one && one in left && a !in left
    ensures Only(map[a := kept, one := gone], left) == map[a := kept]
    ensures Only(map[], left) == map[]
  {
  }

  lemma BystanderParts(one: string, other: string, stamp: string)
    requires "a" != one && "a" != other
    ensures var whole := Bystander(one, other, stamp);
            && whole.local.Keys == {"a", one} && whole.remote.Keys == {"a", other} && whole.stamp == stamp
            && Listed(whole, NothingHidden) == whole.remote
  {
    assert Listed(Bystander(one, other, stamp), NothingHidden) == Bystander(one, other, stamp).remote;
  }

  lemma FittingOfTheBystander(one: string, other: string, stamp: string)
    requires SpelledAlike(one, other)
    ensures Fitting(Bystander(one, other, stamp), Rules(false, true), Lowered, NothingHidden) == Edited(stamp)
  {
    hide Unfit, Lowered, Inside, Only, Listed;
    BystanderParts(one, other, stamp);
    UnfitOfTheBystander(one, other);
    OneIsLeft("a", one, {one, other}, MINE, File("kept", 1));
    OneIsLeft("a", other, {one, other}, THEIRS, File("other", 1));
  }

  lemma BystanderIsThere(one: string, other: string, stamp: string)
    requires SpelledAlike(one, other)
    ensures var whole := Bystander(one, other, stamp);
            one in whole.local && whole.local[one] == File("kept", 1) && Whole(whole).local == whole.local && whole.stamp == stamp
    ensures one !in Edited(stamp).local && Edited(stamp).stamp == stamp && Get(Edited(stamp).local, "a") == Some(MINE)
  {
    hide Lowered, Inside;
  }

  /** It is replaced: a narrowed pass that is cut off there leaves the edit of "a" in its place. */
  lemma CopyTakesUnseen(stamp: string)
    requires IsStamp(stamp)
    ensures var whole, one := Bystander(CopyName(stamp), OtherCase(stamp), stamp), CopyName(stamp);
            exists attempts :: Changes(Held(None, []), CourseOf(whole, Rules(false, true), Lowered, NothingHidden, Held(None, [])), attempts, one)
  {
    hide CourseOf, Changes, Fitting, IsStamp, Merge.ActionFor, SpelledAlike, Lowered, CopyName, OtherCase, Edited, Bystander, Unfit, CopiedTo;
    var one, other, held := CopyName(stamp), OtherCase(stamp), Held(None, []);
    var whole := Bystander(one, other, stamp);
    NamesOfTheBystander(stamp);
    FittingOfTheBystander(one, other, stamp);
    BystanderIsThere(one, other, stamp);
    var k := CourseOf(whole, Rules(false, true), Lowered, NothingHidden, held);
    EditedOnBothSides(stamp);
    assert Leads(k.m, ["a"], one) && ["a"][0] == "a";
    assert GetsAnother(k, one);
    UnseenLocalStays(whole, Rules(false, true), Lowered, NothingHidden, held, one);
  }

  lemma EditedOnBothSides(stamp: string)
    requires IsStamp(stamp)
    ensures Edited(stamp).stamp == stamp && CopiedTo(Edited(stamp), "a", CopyName(stamp))
  {
    hide ConflictCopy;
    CopyOfA(stamp);
  }

  // ---------- the server's side of it ----------

  /** A server folder is asked to go, and nothing holds it back. */
  ghost predicate FolderGoes(m: Merge, held: Held, d: string) {
    && RemovedAsSynced(m, d) && !held.ReadOnly(d) && !held.Fixed(d)
    && !exists root :: held.Fixed(root) && Inside(d, root) && RemovedAsSynced(m, root)
  }

  lemma WhatFolderGoes(m: Merge, held: Held, d: string)
    requires IsStamp(m.stamp)
    ensures RemoveRemoteDirectory(d) in held.Apply(PlanOf(m)).actions <==> FolderGoes(m, held, d)
  {
    hide PlanOf, Merge.ActionFor, Held.ReadOnly, Held.Fixed, Held.Apply;
    RemovalAsked(m, d);
    PlanHolds(m, RemoveRemoteDirectory(d));
    if m.ActionFor(d) == Some(RemoveRemoteDirectory(d)) {
      WhatIsHeldBack(held, m, d, RemoveRemoteDirectory(d));
    } else if RemoveRemoteDirectory(d) in held.Apply(PlanOf(m)).actions {
      NothingTrespasses(held, PlanOf(m), RemoveRemoteDirectory(d));
    }
  }

  /** A server entry a pass does not look at survives it exactly when no folder above it goes. */
  lemma UnseenRemoteSurvives(whole: Merge, rules: Rules, fold: string -> string, hidden: string -> bool, held: Held, x: string)
    requires Setting(whole, rules, fold, hidden) && Unseen(whole, rules, fold, hidden, x)
    ensures var m := Fitting(whole, rules, fold, hidden);
            Get(WholePass(whole, rules, fold, hidden, held).remote, x) == Some(whole.remote[x]) <==>
            !exists d :: Inside(x, d) && FolderGoes(m, held, d)
  {
    hide Merge.ActionFor, PlanOf, Unfit, Fitting, Held.Apply, FolderGoes, Steps, Setting, Unseen;
    SettingStamp(whole, rules, fold, hidden);
    var m := Fitting(whole, rules, fold, hidden);
    var actions := held.Apply(PlanOf(m)).actions;
    forall a | a in actions ensures Sanctioned(m, a) {
      NothingTrespasses(held, PlanOf(m), a);
      PlanHolds(m, a);
      if a.SetAside? { PlanHolds(m, KeepBoth(a.path, a.localCopy)); }
    }
    UnseenFollows(whole, rules, fold, hidden, x, actions);
    forall d ensures RemoveRemoteDirectory(d) in actions <==> FolderGoes(m, held, d) { WhatFolderGoes(m, held, d); }
    assert forall a :: a in actions && Uproots(a, x) ==> a == RemoveRemoteDirectory(a.path);
    assert forall d :: Inside(x, d) ==> Uproots(RemoveRemoteDirectory(d), x);
    ThereIs(whole, rules, fold, hidden, x);
  }

  lemma ThereIs(whole: Merge, rules: Rules, fold: string -> string, hidden: string -> bool, x: string)
    requires Unseen(whole, rules, fold, hidden, x)
    ensures x in whole.remote
  {
  }

  lemma SettingStamp(whole: Merge, rules: Rules, fold: string -> string, hidden: string -> bool)
    requires Setting(whole, rules, fold, hidden)
    ensures IsStamp(whole.stamp)
  {
  }
}

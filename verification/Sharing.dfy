/**
  What folders shared by other accounts hold back: `Held` of crates/client/src/sync/held.rs.
 */
module Sharing {
  import opened Results
  import opened Paths
  import opened ConflictNames
  import opened Planning
  import opened Engine
  import opened NoLoss

  const SHARED_WITH_ME := "Shared with me"

  datatype Access = Read | Write

  datatype Mount = Mount(path: string, access: Access)

  /** What becomes of one planned action. */
  datatype Fate = Goes(action: Action) | Stays(path: string) | Aside(action: Action, held: string)

  datatype Held = Held(shelf: Option<string>, mounts: seq<Mount>) {

    predicate ReadOnly(path: string) {
      exists i | 0 <= i < |mounts| :: mounts[i].access.Read? && AtOrInside(path, mounts[i].path)
    }

    predicate Fixed(path: string) {
      shelf == Some(path) || exists i | 0 <= i < |mounts| :: mounts[i].path == path
    }

    predicate LooseOnTheShelf(path: string) {
      match shelf
      case None => false
      case Some(top) =>
        path == top || (Inside(path, top) && !exists i | 0 <= i < |mounts| :: AtOrInside(path, mounts[i].path))
    }

    predicate RefusesUpload(path: string) { ReadOnly(path) || LooseOnTheShelf(path) }

    predicate Holding(a: Action, uprooted: seq<string>) {
      match a
      case Upload(path) => RefusesUpload(path)
      case CreateRemoteDirectory(path) => RefusesUpload(path)
      case DeleteRemote(path) => ReadOnly(path) || Fixed(path) || InsideAny(path, uprooted)
      case RemoveRemoteDirectory(path) => ReadOnly(path) || Fixed(path) || InsideAny(path, uprooted)
      case _ => false
    }

    function FateOf(a: Action, uprooted: seq<string>): Fate {
      if a.KeepBoth? && RefusesUpload(a.localCopy) then Aside(SetAside(a.path, a.localCopy), a.localCopy)
      else if Holding(a, uprooted) then Stays(a.path)
      else Goes(a)
    }

    /** The shares, and the shelf itself, that the plan wanted to remove from the server. */
    function Uprooted(actions: seq<Action>): (roots: seq<string>)
      ensures forall r :: r in roots <==> RemoveRemoteDirectory(r) in actions && Fixed(r)
    {
      if actions == [] then []
      else
        var last := actions[|actions| - 1];
        assert actions == actions[..|actions| - 1] + [last];
        Uprooted(actions[..|actions| - 1]) +
        (if last.RemoveRemoteDirectory? && Fixed(last.path) then [last.path] else [])
    }

    function Let(actions: seq<Action>, uprooted: seq<string>): seq<Action> {
      if actions == [] then []
      else
        Let(actions[..|actions| - 1], uprooted) +
        (match FateOf(actions[|actions| - 1], uprooted)
         case Goes(a) => [a]
         case Aside(a, _) => [a]
         case Stays(_) => [])
    }

    function Kept(actions: seq<Action>, uprooted: seq<string>): seq<string> {
      if actions == [] then []
      else
        Kept(actions[..|actions| - 1], uprooted) +
        (match FateOf(actions[|actions| - 1], uprooted)
         case Goes(_) => []
         case Aside(_, path) => [path]
         case Stays(path) => [path])
    }

    function Apply(plan: Plan): Plan {
      var uprooted := Uprooted(plan.actions);
      Plan(Let(plan.actions, uprooted), plan.blocked, plan.held + Kept(plan.actions, uprooted))
    }

    lemma OneMore(actions: seq<Action>, i: nat, uprooted: seq<string>)
      requires i < |actions|
      ensures var fate := FateOf(actions[i], uprooted);
              && Let(actions[..i + 1], uprooted) ==
                 (if fate.Stays? then Let(actions[..i], uprooted) else Let(actions[..i], uprooted) + [fate.action])
              && Kept(actions[..i + 1], uprooted) ==
                 (match fate
                  case Goes(_) => Kept(actions[..i], uprooted)
                  case Aside(_, path) => Kept(actions[..i], uprooted) + [path]
                  case Stays(path) => Kept(actions[..i], uprooted) + [path])
      ensures Uprooted(actions[..i + 1]) ==
              (if actions[i].RemoveRemoteDirectory? && Fixed(actions[i].path) then Uprooted(actions[..i]) + [actions[i].path]
               else Uprooted(actions[..i]))
    {
      assert actions[..i + 1][..i] == actions[..i];
    }

    lemma NoneYet(actions: seq<Action>, uprooted: seq<string>)
      ensures Let(actions[..0], uprooted) == [] && Kept(actions[..0], uprooted) == [] && Uprooted(actions[..0]) == []
      ensures actions[..|actions|] == actions
    {
    }

    /** The roots the plan wants gone that must stay. */
    method RootsKept(plan: Plan) returns (uprooted: seq<string>)
      ensures uprooted == Uprooted(plan.actions)
    {
      hide Let, Kept, Uprooted, FateOf, Fixed;
      NoneYet(plan.actions, []);
      uprooted := [];
      for i := 0 to |plan.actions|
        invariant uprooted == Uprooted(plan.actions[..i])
      {
        OneMore(plan.actions, i, uprooted);
        var a := plan.actions[i];
        if a.RemoveRemoteDirectory? && Fixed(a.path) { uprooted := uprooted + [a.path]; }
      }
    }

    /** `Held::apply`: one walk for the roots, one that sorts each action. */
    method ApplyInTurn(plan: Plan) returns (narrowed: Plan)
      ensures narrowed == Apply(plan)
    {
      hide Let, Kept, Uprooted, RefusesUpload, Holding;
      var uprooted := RootsKept(plan);
      NoneYet(plan.actions, uprooted);
      var held, actions: seq<Action> := plan.held, [];
      ghost var added: seq<string> := [];
      for i := 0 to |plan.actions|
        invariant actions == Let(plan.actions[..i], uprooted)
        invariant added == Kept(plan.actions[..i], uprooted) && held == plan.held + added
      {
        OneMore(plan.actions, i, uprooted);
        var a := plan.actions[i];
        if a.KeepBoth? && RefusesUpload(a.localCopy) {
          held, added := held + [a.localCopy], added + [a.localCopy];
          actions := actions + [SetAside(a.path, a.localCopy)];
        } else if Holding(a, uprooted) {
          held, added := held + [a.path], added + [a.path];
        } else {
          actions := actions + [a];
        }
      }
      narrowed := Plan(actions, plan.blocked, held);
    }
  }

  predicate InsideAny(path: string, roots: seq<string>) {
    exists i | 0 <= i < |roots| :: Inside(path, roots[i])
  }

  // ---------- nothing is dropped on the way ----------

  /** An action that would change the server where this client may not. */
  ghost predicate Trespasses(h: Held, a: Action, uprooted: seq<string>) {
    match a
    case Upload(p) => h.RefusesUpload(p)
    case CreateRemoteDirectory(p) => h.RefusesUpload(p)
    case KeepBoth(_, c) => h.RefusesUpload(c)
    case DeleteRemote(p) => h.ReadOnly(p) || h.Fixed(p) || InsideAny(p, uprooted)
    case RemoveRemoteDirectory(p) => h.ReadOnly(p) || h.Fixed(p) || InsideAny(p, uprooted)
    case _ => false
  }

  lemma {:induction false} LetHolds(h: Held, actions: seq<Action>, uprooted: seq<string>, b: Action)
    ensures b in h.Let(actions, uprooted) <==>
            exists a :: a in actions && (h.FateOf(a, uprooted) == Goes(b) || (h.FateOf(a, uprooted).Aside? && h.FateOf(a, uprooted).action == b))
  {
    if actions != [] {
      var rest, last := actions[..|actions| - 1], actions[|actions| - 1];
      LetHolds(h, rest, uprooted, b);
      assert actions == rest + [last];
      assert last in actions;
    }
  }

  lemma {:induction false} KeptHolds(h: Held, actions: seq<Action>, uprooted: seq<string>, p: string)
    ensures p in h.Kept(actions, uprooted) <==>
            exists a :: a in actions && (h.FateOf(a, uprooted) == Stays(p) || (h.FateOf(a, uprooted).Aside? && h.FateOf(a, uprooted).held == p))
  {
    if actions != [] {
      var rest, last := actions[..|actions| - 1], actions[|actions| - 1];
      KeptHolds(h, rest, uprooted, p);
      assert actions == rest + [last];
      assert last in actions;
    }
  }

  /** Every planned action goes ahead, is turned into setting the local file aside, or is listed as held. */
  lemma NothingIsForgotten(h: Held, plan: Plan, a: Action)
    requires a in plan.actions
    ensures var after := h.Apply(plan);
            || a in after.actions
            || a.path in after.held
            || (a.KeepBoth? && SetAside(a.path, a.localCopy) in after.actions && a.localCopy in after.held)
  {
    var uprooted := h.Uprooted(plan.actions);
    match h.FateOf(a, uprooted) {
      case Goes(b) => LetHolds(h, plan.actions, uprooted, b);
      case Aside(b, held) =>
        LetHolds(h, plan.actions, uprooted, b);
        KeptHolds(h, plan.actions, uprooted, held);
      case Stays(p) => KeptHolds(h, plan.actions, uprooted, p);
    }
  }

  /** Nothing left in the plan writes into a read-only share or loose on the shelf, or removes a share, the shelf, or what a removed one holds. */
  lemma NothingTrespasses(h: Held, plan: Plan, b: Action)
    requires b in h.Apply(plan).actions
    ensures !Trespasses(h, b, h.Uprooted(plan.actions))
    ensures b in plan.actions || (b.SetAside? && KeepBoth(b.path, b.localCopy) in plan.actions)
  {
    var uprooted := h.Uprooted(plan.actions);
    LetHolds(h, plan.actions, uprooted, b);
    var a :| a in plan.actions && (h.FateOf(a, uprooted) == Goes(b) || (h.FateOf(a, uprooted).Aside? && h.FateOf(a, uprooted).action == b));
    assert a.KeepBoth? ==> a == KeepBoth(a.path, a.localCopy);
  }

  // ---------- what goes through, in shares and segments ----------

  /** Segment by segment, the path leads to a share nothing may be written into, or further into one. */
  ghost predicate InAReadShare(h: Held, path: string) {
    exists mount :: mount in h.mounts && mount.access == Read && Split(mount.path) <= Split(path)
  }

  ghost predicate InAShare(h: Held, path: string) {
    exists mount :: mount in h.mounts && Split(mount.path) <= Split(path)
  }

  /** The shelf and the shares themselves. */
  ghost predicate IsRoot(h: Held, path: string) {
    h.shelf == Some(path) || exists mount :: mount in h.mounts && mount.path == path
  }

  /** Nothing new may be sent there: not into a read-only share, and on the shelf only into a share. */
  ghost predicate OffLimits(h: Held, path: string) {
    InAReadShare(h, path) || h.shelf == Some(path) || (h.shelf.Some? && Split(h.shelf.value) <= Split(path) && !InAShare(h, path))
  }

  /** In a share, or on the shelf, that the plan wants gone as a whole. */
  ghost predicate GoesWithItsRoot(h: Held, plan: Plan, path: string) {
    exists root :: IsRoot(h, root) && RemoveRemoteDirectory(root) in plan.actions && Split(root) < Split(path)
  }

  lemma AtOrInsideIsAPrefix(p: string, directory: string)
    ensures AtOrInside(p, directory) <==> Split(directory) <= Split(p)
    ensures Inside(p, directory) <==> Split(directory) < Split(p)
  {
    InsideIsAProperPrefixOfSegments(p, directory);
    if Split(directory) == Split(p) {
      JoinSplit(p);
      JoinSplit(directory);
    }
  }

  lemma SharesAreSegments(h: Held, path: string)
    ensures h.ReadOnly(path) <==> InAReadShare(h, path)
    ensures h.Fixed(path) <==> IsRoot(h, path)
    ensures h.RefusesUpload(path) <==> OffLimits(h, path)
  {
    hide Split;
    forall directory ensures AtOrInside(path, directory) <==> Split(directory) <= Split(path) { AtOrInsideIsAPrefix(path, directory); }
    forall directory ensures Inside(path, directory) <==> Split(directory) < Split(path) { AtOrInsideIsAPrefix(path, directory); }
  }

  lemma RootsAreSegments(h: Held, plan: Plan, path: string)
    ensures InsideAny(path, h.Uprooted(plan.actions)) <==> GoesWithItsRoot(h, plan, path)
  {
    hide Split, Held.Fixed, IsRoot;
    var uprooted := h.Uprooted(plan.actions);
    forall root ensures root in uprooted <==> IsRoot(h, root) && RemoveRemoteDirectory(root) in plan.actions { SharesAreSegments(h, root); }
    forall root ensures Inside(path, root) <==> Split(root) < Split(path) { AtOrInsideIsAPrefix(path, root); }
    if root :| IsRoot(h, root) && RemoveRemoteDirectory(root) in plan.actions && Split(root) < Split(path) { assert root in uprooted; }
  }

  /** Exactly what is left of a plan: whatever is sent up or removed on the server where the shares allow it, and all that happens here. */
  lemma ExactlyWhatGoesThrough(h: Held, plan: Plan, a: Action)
    ensures a in h.Apply(plan).actions <==>
            match a
            case Upload(path) => a in plan.actions && !OffLimits(h, path)
            case CreateRemoteDirectory(path) => a in plan.actions && !OffLimits(h, path)
            case KeepBoth(_, copy) => a in plan.actions && !OffLimits(h, copy)
            case SetAside(path, copy) => a in plan.actions || (KeepBoth(path, copy) in plan.actions && OffLimits(h, copy))
            case DeleteRemote(path) => a in plan.actions && !InAReadShare(h, path) && !IsRoot(h, path) && !GoesWithItsRoot(h, plan, path)
            case RemoveRemoteDirectory(path) => a in plan.actions && !InAReadShare(h, path) && !IsRoot(h, path) && !GoesWithItsRoot(h, plan, path)
            case _ => a in plan.actions
  {
    hide Split, Held.ReadOnly, Held.Fixed, Held.RefusesUpload, OffLimits, InAReadShare, IsRoot, GoesWithItsRoot, InsideAny, Held.Uprooted, Held.Let, Held.Kept;
    SharesAreSegments(h, a.path);
    RootsAreSegments(h, plan, a.path);
    var uprooted := h.Uprooted(plan.actions);
    LetHolds(h, plan.actions, uprooted, a);
    if a.SetAside? || a.KeepBoth? {
      SharesAreSegments(h, a.localCopy);
      var both := KeepBoth(a.path, a.localCopy);
      assert h.RefusesUpload(a.localCopy) ==> h.FateOf(both, uprooted) == Aside(SetAside(a.path, a.localCopy), a.localCopy);
    }
    assert h.FateOf(a, uprooted) == Goes(a) || h.FateOf(a, uprooted).Aside? || h.FateOf(a, uprooted) == Stays(a.path);
  }

  /** What is reported as held is what already was and what was left out of the plan, a conflicting file under the name of its copy. */
  lemma ExactlyWhatIsReported(h: Held, plan: Plan, path: string)
    ensures path in h.Apply(plan).held <==>
            path in plan.held || exists a :: a in plan.actions && a !in h.Apply(plan).actions && path == if a.KeepBoth? then a.localCopy else a.path
    ensures h.Apply(plan).blocked == plan.blocked
  {
    hide Split, Held.ReadOnly, Held.Fixed, Held.RefusesUpload, InsideAny, Held.Uprooted, Held.Let, Held.Kept;
    var uprooted := h.Uprooted(plan.actions);
    KeptHolds(h, plan.actions, uprooted, path);
    forall a | a in plan.actions ensures a in h.Apply(plan).actions <==> h.FateOf(a, uprooted) == Goes(a) {
      LetHolds(h, plan.actions, uprooted, a);
    }
  }

  lemma {:induction false} UntouchedWhenNothingTrespasses(h: Held, actions: seq<Action>, uprooted: seq<string>)
    requires forall a :: a in actions ==> !Trespasses(h, a, uprooted)
    ensures h.Let(actions, uprooted) == actions && h.Kept(actions, uprooted) == []
  {
    hide Held.Let, Held.Kept, Trespasses;
    if actions == [] {
      NothingLet(h, uprooted);
    } else {
      var rest, last := actions[..|actions| - 1], actions[|actions| - 1];
      assert actions == rest + [last];
      assert last in actions;
      UntouchedWhenNothingTrespasses(h, rest, uprooted);
      LastIsUntouched(h, rest, last, uprooted);
    }
  }

  lemma LastIsUntouched(h: Held, rest: seq<Action>, last: Action, uprooted: seq<string>)
    requires !Trespasses(h, last, uprooted)
    ensures h.Let(rest + [last], uprooted) == h.Let(rest, uprooted) + [last] && h.Kept(rest + [last], uprooted) == h.Kept(rest, uprooted)
  {
    assert (rest + [last])[..|rest|] == rest;
  }

  lemma NoRootIsRemoved(h: Held, a: Action, uprooted: seq<string>)
    requires !Trespasses(h, a, uprooted)
    ensures a.RemoveRemoteDirectory? ==> !h.Fixed(a.path)
    ensures !Trespasses(h, a, [])
  {
    hide Held.RefusesUpload, Held.ReadOnly, Held.Fixed;
  }

  /** Narrowing a plan that has been narrowed changes nothing. */
  lemma NarrowingIsIdempotent(h: Held, plan: Plan)
    ensures h.Apply(h.Apply(plan)) == h.Apply(plan)
  {
    hide Held.Let, Held.Kept, Held.Uprooted, Held.Fixed, Trespasses;
    var once := h.Apply(plan);
    var uprooted := h.Uprooted(once.actions);
    forall a | a in once.actions ensures !Trespasses(h, a, []) && (a.RemoveRemoteDirectory? ==> !h.Fixed(a.path)) {
      NothingTrespasses(h, plan, a);
      NoRootIsRemoved(h, a, h.Uprooted(plan.actions));
    }
    SomethingOrNothing(uprooted);
    UntouchedWhenNothingTrespasses(h, once.actions, uprooted);
  }

  // ---------- the narrowed plan is as safe as the whole one ----------

  lemma {:induction false} LetKeepsSubjects(h: Held, actions: seq<Action>, uprooted: seq<string>)
    requires forall i, j :: 0 <= i < j < |actions| ==> actions[i].path != actions[j].path
    ensures var left := h.Let(actions, uprooted);
            && (forall i, j :: 0 <= i < j < |left| ==> left[i].path != left[j].path)
            && (forall b :: b in left ==> exists a :: a in actions && a.path == b.path)
  {
    if actions != [] {
      var rest, last := actions[..|actions| - 1], actions[|actions| - 1];
      LetKeepsSubjects(h, rest, uprooted);
      assert actions == rest + [last];
      assert last in actions;
      forall i | 0 <= i < |h.Let(rest, uprooted)| ensures h.Let(rest, uprooted)[i].path != last.path {
        assert h.Let(rest, uprooted)[i] in h.Let(rest, uprooted);
      }
    }
  }

  lemma {:induction false} LetKeepsOrder(h: Held, actions: seq<Action>, uprooted: seq<string>)
    requires InOrder(actions)
    ensures InOrder(h.Let(actions, uprooted))
    ensures forall b :: b in h.Let(actions, uprooted) ==> exists a :: a in actions && a.path == b.path && Stage(a) == Stage(b)
  {
    hide Less, Held.Let, Stage, Held.FateOf;
    if actions == [] {
      assert h.Let(actions, uprooted) == [] by { NothingLet(h, uprooted); }
    } else {
      var rest, last := actions[..|actions| - 1], actions[|actions| - 1];
      assert actions == rest + [last];
      assert last in actions;
      LetKeepsOrder(h, rest, uprooted);
      var left := h.Let(rest, uprooted);
      forall i | 0 <= i < |left| ensures Before(left[i], last) {
        assert left[i] in left;
        var a :| a in rest && a.path == left[i].path && Stage(a) == Stage(left[i]);
        var j :| 0 <= j < |rest| && rest[j] == a;
        assert Before(actions[j], actions[|rest|]);
      }
      LetEndsAtLast(h, rest, last, uprooted);
    }
  }

  lemma NothingLet(h: Held, uprooted: seq<string>)
    ensures h.Let([], uprooted) == [] && h.Kept([], uprooted) == []
  {
  }

  lemma LetEndsAtLast(h: Held, rest: seq<Action>, last: Action, uprooted: seq<string>)
    ensures h.Let(rest + [last], uprooted) == h.Let(rest, uprooted) ||
            exists b: Action :: h.Let(rest + [last], uprooted) == h.Let(rest, uprooted) + [b] && b.path == last.path && Stage(b) == Stage(last)
  {
    assert (rest + [last])[..|rest|] == rest;
    match h.FateOf(last, uprooted) {
      case Goes(b) => assert h.Let(rest + [last], uprooted) == h.Let(rest, uprooted) + [b] && b.path == last.path && Stage(b) == Stage(last);
      case Aside(b, _) => assert h.Let(rest + [last], uprooted) == h.Let(rest, uprooted) + [b] && b.path == last.path && Stage(b) == Stage(last);
      case Stays(_) => assert h.Let(rest + [last], uprooted) == h.Let(rest, uprooted);
    }
  }

  /** What is left of a plan is in the order of the plan. */
  lemma NarrowedPlansAreInOrder(h: Held, m: Merge)
    requires IsStamp(m.stamp)
    ensures InOrder(h.Apply(PlanOf(m)).actions)
  {
    hide PlanOf, Merge.ActionFor;
    PlanInOrder(m);
    LetKeepsOrder(h, PlanOf(m).actions, h.Uprooted(PlanOf(m).actions));
  }

  /** The first so many actions of the narrowed plan, each cut short somewhere. */
  ghost predicate Narrowed(h: Held, m: Merge, attempts: seq<Attempt>)
    requires IsStamp(m.stamp)
  {
    |attempts| <= |h.Apply(PlanOf(m)).actions| && forall i :: 0 <= i < |attempts| ==> attempts[i].action == h.Apply(PlanOf(m)).actions[i]
  }

  /** What is held back, as a rule: what may not be sent up is only set aside, and what may not be lost is spared. */
  function RuleOf(h: Held, m: Merge): Rule
    requires IsStamp(m.stamp)
  {
    var uprooted := h.Uprooted(PlanOf(m).actions);
    Rule(c => h.RefusesUpload(c), p => h.ReadOnly(p) || h.Fixed(p) || InsideAny(p, uprooted))
  }

  /** The narrowed plan is what the rule leaves of the plan. */
  lemma WhatRemains(h: Held, m: Merge, b: Action)
    requires IsStamp(m.stamp)
    ensures b in h.Apply(PlanOf(m)).actions <==> Sanctioned(m, b) && Obeys(RuleOf(h, m), b)
  {
    hide PlanOf, Merge.ActionFor, Held.ReadOnly, Held.Fixed, Held.RefusesUpload, InsideAny;
    var plan := PlanOf(m);
    var uprooted := h.Uprooted(plan.actions);
    LetHolds(h, plan.actions, uprooted, b);
    PlanHolds(m, b);
    if m.ActionFor(b.path) == Some(b) { WhatIsAsked(m, b); }
    if b.SetAside? {
      PlanHolds(m, KeepBoth(b.path, b.localCopy));
      if Sanctioned(m, b) && Obeys(RuleOf(h, m), b) { assert h.FateOf(KeepBoth(b.path, b.localCopy), uprooted) == Aside(b, b.localCopy); }
    } else if b in plan.actions && Obeys(RuleOf(h, m), b) {
      assert h.FateOf(b, uprooted) == Goes(b);
    }
    forall a | a in plan.actions ensures m.ActionFor(a.path) == Some(a) && !a.SetAside? {
      PlanHolds(m, a);
      WhatIsAsked(m, a);
    }
  }

  lemma NarrowedObey(h: Held, m: Merge, attempts: seq<Attempt>)
    requires IsStamp(m.stamp) && Narrowed(h, m, attempts)
    ensures AllObey(RuleOf(h, m), attempts)
  {
    hide PlanOf, Merge.ActionFor, RuleOf, Held.Apply, Obeys;
    forall i | 0 <= i < |attempts| ensures Obeys(RuleOf(h, m), attempts[i].action) { WhatRemains(h, m, attempts[i].action); }
  }

  // ---------- leaving an action out is cutting it before its first step ----------

  /** Each action of a plan, with the cut it was attempted with, or none of its steps. */
  function Spread(attempts: seq<Attempt>, actions: seq<Action>): seq<Attempt> {
    if actions == [] then []
    else
      var last := actions[|actions| - 1];
      if attempts != [] && attempts[|attempts| - 1].action == last then
        Spread(attempts[..|attempts| - 1], actions[..|actions| - 1]) + [attempts[|attempts| - 1]]
      else Spread(attempts, actions[..|actions| - 1]) + [Attempt(last, 0)]
  }

  ghost predicate AllAmong(attempts: seq<Attempt>, actions: seq<Action>) {
    forall i :: 0 <= i < |attempts| ==> attempts[i].action in actions
  }

  lemma AmongTheRest(attempts: seq<Attempt>, actions: seq<Action>)
    requires actions != [] && InOrder(actions) && InTurn(attempts) && AllAmong(attempts, actions)
    ensures var last, rest := actions[|actions| - 1], actions[..|actions| - 1];
            if attempts != [] && attempts[|attempts| - 1].action == last then AllAmong(attempts[..|attempts| - 1], rest) && InTurn(attempts[..|attempts| - 1])
            else AllAmong(attempts, rest)
  {
    hide Before;
    var last, rest := actions[|actions| - 1], actions[..|actions| - 1];
    assert actions == rest + [last];
    if attempts != [] {
      var end := attempts[|attempts| - 1].action;
      forall i | 0 <= i < |attempts| - 1 ensures attempts[i].action != last && attempts[i].action in rest {
        assert Before(attempts[i].action, end);
        BeforeIsStrict(attempts[i].action, end);
        var j :| 0 <= j < |actions| && actions[j] == end;
        assert j < |actions| - 1 ==> Before(actions[j], last);
        if j < |actions| - 1 { BeforeIsStrict(end, last); }
      }
    }
  }

  /** What spreading keeps. */
  ghost predicate SameRun(start: World, attempts: seq<Attempt>, spread: seq<Attempt>, actions: seq<Action>, seen: Listing) {
    && |spread| == |actions| && (forall i :: 0 <= i < |spread| ==> spread[i].action == actions[i])
    && Attempted(start, spread, seen) == Attempted(start, attempts, seen)
    && (forall p :: WasSetAside(spread, p) <==> WasSetAside(attempts, p))
  }

  lemma {:induction false} SpreadRunsTheSame(start: World, attempts: seq<Attempt>, actions: seq<Action>, seen: Listing)
    requires InOrder(actions) && InTurn(attempts) && AllAmong(attempts, actions)
    ensures SameRun(start, attempts, Spread(attempts, actions), actions, seen)
  {
    hide InTurn, InOrder, AllAmong, SameRun;
    if actions == [] {
      NoneAmongNothing(attempts);
      NothingSpread(start, seen);
    } else {
      var last, rest := actions[|actions| - 1], actions[..|actions| - 1];
      assert actions == rest + [last];
      RestInOrder(actions);
      AmongTheRest(attempts, actions);
      if attempts != [] && attempts[|attempts| - 1].action == last {
        var fewer, end := attempts[..|attempts| - 1], attempts[|attempts| - 1];
        assert attempts == fewer + [end];
        SpreadRunsTheSame(start, fewer, rest, seen);
        OneTaken(start, fewer, end, Spread(fewer, rest), rest, seen);
      } else {
        SpreadRunsTheSame(start, attempts, rest, seen);
        OneSkipped(start, attempts, last, Spread(attempts, rest), rest, seen);
      }
    }
  }

  lemma NothingSpread(start: World, seen: Listing)
    ensures SameRun(start, [], [], [], seen)
  {
  }

  lemma OneTaken(start: World, fewer: seq<Attempt>, end: Attempt, spread: seq<Attempt>, rest: seq<Action>, seen: Listing)
    requires SameRun(start, fewer, spread, rest, seen)
    ensures SameRun(start, fewer + [end], spread + [end], rest + [end.action], seen)
  {
    hide Attempted, WasSetAside, Steps, SetsAside;
    AttemptedMore(start, spread, end, seen);
    AttemptedMore(start, fewer, end, seen);
    forall p ensures WasSetAside(spread + [end], p) <==> WasSetAside(fewer + [end], p) {
      OneMoreAside(spread, end, p);
      OneMoreAside(fewer, end, p);
    }
  }

  lemma OneSkipped(start: World, attempts: seq<Attempt>, last: Action, spread: seq<Attempt>, rest: seq<Action>, seen: Listing)
    requires SameRun(start, attempts, spread, rest, seen)
    ensures SameRun(start, attempts, spread + [Attempt(last, 0)], rest + [last], seen)
  {
    hide Attempted, WasSetAside, Steps, SetsAside;
    AttemptedMore(start, spread, Attempt(last, 0), seen);
    NothingCarried(Attempted(start, spread, seen), last, seen);
    NotAside(last);
    forall p ensures WasSetAside(spread + [Attempt(last, 0)], p) <==> WasSetAside(attempts, p) { OneMoreAside(spread, Attempt(last, 0), p); }
  }

  lemma NotAside(a: Action)
    ensures !SetsAside(Attempt(a, 0))
  {
  }

  lemma RestInOrder(actions: seq<Action>)
    requires actions != [] && InOrder(actions)
    ensures InOrder(actions[..|actions| - 1])
  {
    hide Before;
  }

  lemma NoneAmongNothing(attempts: seq<Attempt>)
    requires AllAmong(attempts, [])
    ensures attempts == []
  {
    if attempts != [] { OneAmong(attempts, [], 0); }
  }

  lemma OneAmong(attempts: seq<Attempt>, actions: seq<Action>, i: nat)
    requires AllAmong(attempts, actions) && i < |attempts|
    ensures attempts[i].action in actions
  {
  }

  lemma NothingCarried(w: World, a: Action, seen: Listing)
    ensures Carry(w, Cut(Steps(a, seen), 0)) == w
  {
    hide Above;
    if |Steps(a, seen)| > 0 { assert Cut(Steps(a, seen), 0) == []; }
  }

  lemma OneMoreAside(attempts: seq<Attempt>, last: Attempt, p: string)
    ensures WasSetAside(attempts + [last], p) <==> WasSetAside(attempts, p) || (last.action.path == p && SetsAside(last))
  {
    var more := attempts + [last];
    if WasSetAside(attempts, p) {
      var i :| 0 <= i < |attempts| && attempts[i].action.path == p && SetsAside(attempts[i]);
      assert more[i] == attempts[i];
    }
    if last.action.path == p && SetsAside(last) { assert more[|attempts|] == last; }
  }

  /** Whatever part of what the rule leaves is attempted in turn is a narrowed pass, cut here and there. */
  lemma PartIsNarrowed(h: Held, k: Course, attempts: seq<Attempt>) returns (narrowed: seq<Attempt>)
    requires IsStamp(k.m.stamp) && k.rule == RuleOf(h, k.m)
    requires Runnable(k.m, attempts) && InTurn(attempts) && AllObey(k.rule, attempts)
    ensures Narrowed(h, k.m, narrowed)
    ensures Attempted(k.start, narrowed, k.Seen()) == Attempted(k.start, attempts, k.Seen())
    ensures forall p :: WasSetAside(narrowed, p) <==> WasSetAside(attempts, p)
  {
    hide PlanOf, Merge.ActionFor, RuleOf, Held.Apply, Obeys, InTurn, Attempted, WasSetAside, Spread;
    var actions := h.Apply(PlanOf(k.m)).actions;
    NarrowedPlansAreInOrder(h, k.m);
    forall i | 0 <= i < |attempts| ensures attempts[i].action in actions { WhatRemains(h, k.m, attempts[i].action); }
    SpreadRunsTheSame(k.start, attempts, actions, k.Seen());
    narrowed := Spread(attempts, actions);
    assert SameRun(k.start, attempts, narrowed, actions, k.Seen());
  }

  /** A narrowed pass, cut anywhere, that loses what the folder had gained at `p`. */
  ghost predicate NarrowedLoses(h: Held, k: Course, attempts: seq<Attempt>, p: string)
    requires IsStamp(k.m.stamp)
  {
    && Narrowed(h, k.m, attempts) && ChangedLocally(k.m, p)
    && !Survives(k.m, Attempted(k.start, attempts, k.Seen()), attempts, p)
  }

  /** A narrowed pass can lose something, cut somewhere, exactly when a copy clashes under what is held back. */
  lemma NarrowedLosingTakesAClash(h: Held, k: Course)
    requires IsStamp(k.m.stamp) && BothSides(k) && k.rule == RuleOf(h, k.m)
    ensures (exists attempts, p :: NarrowedLoses(h, k, attempts, p)) <==> Clashing(k, true)
  {
    hide BothSides, Clashing, RuleOf, Narrowed, Runnable, InTurn, AllObey, Attempted, OnEitherSide, WasSetAside, ChangedLocally, IsStamp;
    LosingTakesAClash(k);
    if attempts, p :| Loses(k, attempts, p) {
      var narrowed := PartIsNarrowed(h, k, attempts);
      SurvivesTheSame(k, attempts, narrowed, p);
      assert NarrowedLoses(h, k, narrowed, p);
    }
    if attempts, p :| NarrowedLoses(h, k, attempts, p) {
      NarrowedAreRunnable(h, k.m, attempts);
      NarrowedObey(h, k.m, attempts);
      assert Loses(k, attempts, p);
    }
  }

  lemma SurvivesTheSame(k: Course, attempts: seq<Attempt>, others: seq<Attempt>, p: string)
    requires IsStamp(k.m.stamp) && ChangedLocally(k.m, p) && (WasSetAside(others, p) <==> WasSetAside(attempts, p))
    requires Attempted(k.start, others, k.Seen()) == Attempted(k.start, attempts, k.Seen())
    ensures p in k.m.local
    ensures Survives(k.m, Attempted(k.start, attempts, k.Seen()), attempts, p) <==> Survives(k.m, Attempted(k.start, others, k.Seen()), others, p)
  {
    hide Attempted, OnEitherSide, WasSetAside, Merge.ActionFor;
  }

  lemma NarrowedAreRunnable(h: Held, m: Merge, attempts: seq<Attempt>)
    requires IsStamp(m.stamp) && Narrowed(h, m, attempts)
    ensures Runnable(m, attempts) && InTurn(attempts)
  {
    hide PlanOf, Merge.ActionFor, Held.FateOf, Less;
    var plan := PlanOf(m);
    forall i, j | 0 <= i < j < |plan.actions| ensures plan.actions[i].path != plan.actions[j].path {
      SubjectsAreDistinct(m, i, j);
    }
    LetKeepsSubjects(h, plan.actions, h.Uprooted(plan.actions));
    NarrowedPlansAreInOrder(h, m);
    forall i | 0 <= i < |attempts| ensures Sanctioned(m, attempts[i].action) {
      var b := attempts[i].action;
      NothingTrespasses(h, plan, b);
      PlanHolds(m, b);
      if b.SetAside? { PlanHolds(m, KeepBoth(b.path, b.localCopy)); }
    }
  }

  /** With fresh names, any attempts at the narrowed plan leave a local change in the folder. */
  lemma {:induction false} NarrowedPlansLoseNothing(h: Held, m: Merge, attempts: seq<Attempt>, p: string)
    requires IsStamp(m.stamp) && Closed(m.local) && Closed(m.remote) && FreshCopies(m)
    requires Narrowed(h, m, attempts)
    ensures var w := Attempted(World(m.local, m.remote, m.base), attempts, Listing(m.local, m.remote));
            && (ChangedLocally(m, p) ==>
                  || Get(w.local, p) == Some(m.local[p])
                  || exists c :: CopiedTo(m, p, c) && Get(w.local, c) == Some(m.local[p]))
            && (ChangedRemotely(m, p) ==> Get(w.remote, p) == Some(m.remote[p]))
  {
    hide Narrowed, Merge.ActionFor, FreshCopies, Runnable, InTurn;
    NarrowedAreRunnable(h, m, attempts);
    NothingIsLost(m, attempts, p);
  }

  // ---------- what removing a share here does to what it holds ----------

  /** A share, or the shelf, was removed here, and the server's copy gained nothing since the last pass. */
  ghost predicate RemovedAsSynced(m: Merge, root: string) {
    && Get(m.remote, root) == Some(Directory) && root !in m.local && root in m.base
    && forall q :: q in m.remote && Inside(q, root) ==> Get(m.base, q) == Some(m.remote[q])
  }

  /**
    Removing a shared folder here is meant to hold back everything inside it. It does so exactly
    when the share gained nothing: the removal of a file or a folder is held if and only if it may not
    be written, is itself a share, or lies in a removed root that is still as it was synced.
   */
  lemma WhatIsHeldBack(h: Held, m: Merge, p: string, a: Action)
    requires IsStamp(m.stamp)
    requires m.ActionFor(p) == Some(a) && (a == DeleteRemote(p) || a == RemoveRemoteDirectory(p))
    ensures a !in h.Apply(PlanOf(m)).actions <==>
            || h.ReadOnly(p)
            || h.Fixed(p)
            || exists root :: h.Fixed(root) && Inside(p, root) && RemovedAsSynced(m, root)
  {
    hide PlanOf, Merge.ActionFor;
    var plan := PlanOf(m);
    var uprooted := h.Uprooted(plan.actions);
    PlanHolds(m, a);
    forall root ensures root in uprooted <==> h.Fixed(root) && RemovedAsSynced(m, root) {
      UprootedMeans(h, m, root);
    }
    LetHolds(h, plan.actions, uprooted, a);
    assert InsideAny(p, uprooted) <==> exists root :: root in uprooted && Inside(p, root);
  }

  lemma UprootedMeans(h: Held, m: Merge, root: string)
    requires IsStamp(m.stamp)
    ensures root in h.Uprooted(PlanOf(m).actions) <==> h.Fixed(root) && RemovedAsSynced(m, root)
  {
    hide PlanOf, Merge.ActionFor;
    PlanHolds(m, RemoveRemoteDirectory(root));
    RemovalAsked(m, root);
  }

  const SHARE := "Shared with me/in"
  const SYNCED := "Shared with me/in/a"
  const GAINED := "Shared with me/in/b"

  /** A write share holding one synced file, removed here after somebody added a second one to it. */
  function GainedShare(stamp: string): Merge {
    var base := map[SHARED_WITH_ME := Directory, SHARE := Directory, SYNCED := File("x", 1)];
    Merge(map[SHARED_WITH_ME := Directory], base[GAINED := File("y", 1)], base, stamp)
  }

  lemma GainedShareIsNotAsSynced(stamp: string)
    ensures var m := GainedShare(stamp);
            && !RemovedAsSynced(m, SHARE) && !RemovedAsSynced(m, SHARED_WITH_ME)
            && SYNCED !in m.local && Get(m.remote, SYNCED) == Get(m.base, SYNCED) == Some(File("x", 1))
  {
    assert Inside(GAINED, SHARE);
  }

  /** The deletion of the synced file goes through to its owner. */
  lemma AGainedFileLetsTheOthersGo(stamp: string)
    requires IsStamp(stamp)
    ensures DeleteRemote(SYNCED) in Held(Some(SHARED_WITH_ME), [Mount(SHARE, Write)]).Apply(PlanOf(GainedShare(stamp))).actions
  {
    hide Merge.ActionFor, PlanOf, Held.Apply, GainedShare, RemovedAsSynced;
    var h := Held(Some(SHARED_WITH_ME), [Mount(SHARE, Write)]);
    var m := GainedShare(stamp);
    assert m.stamp == stamp by { StampOfGainedShare(stamp); }
    GainedShareIsNotAsSynced(stamp);
    DeletionAsked(m, SYNCED);
    assert forall root :: h.Fixed(root) ==> root == SHARED_WITH_ME || root == SHARE;
    WhatIsHeldBack(h, m, SYNCED, DeleteRemote(SYNCED));
  }

  lemma StampOfGainedShare(stamp: string)
    ensures GainedShare(stamp).stamp == stamp
  {
  }
}

/**
  What becomes of a local entry that a pass does not look at: it stays, unless a conflict copy is given
  its name (crates/client/src/sync/engine.rs).
 */
module Bystanders {
  import opened Results
  import opened Paths
  import opened ConflictNames
  import opened Planning
  import opened Engine
  import opened NoLoss
  import opened Sharing

  // ---------- copies that lead to a name ----------

  /** Each file of the chain is set aside under the next one's name, in the order of the plan, and the last under `x`. */
  ghost predicate Leads(m: Merge, chain: seq<string>, x: string)
    requires IsStamp(m.stamp)
  {
    && chain != []
    && (forall i :: 0 <= i < |chain| - 1 ==> CopiedTo(m, chain[i], chain[i + 1]) && Less(chain[i], chain[i + 1]))
    && CopiedTo(m, chain[|chain| - 1], x)
  }

  /** Something else than what is at `x` is set aside under its name, right away or along a chain. */
  ghost predicate GetsAnother(k: Course, x: string)
    requires IsStamp(k.m.stamp) && x in k.start.local
  {
    k.start.local[x].File? && exists chain :: Leads(k.m, chain, x) && Get(k.m.local, chain[0]) != Some(k.start.local[x])
  }

  /** A name the pass does not look at, or one whose file is in conflict. */
  ghost predicate Watched(m: Merge, q: string)
    requires IsStamp(m.stamp)
  {
    (q !in m.local && q !in m.remote) || exists c :: CopiedTo(m, q, c)
  }

  // ---------- a step, and an attempt ----------

  /** A step that changes nothing of the folder at `x`. */
  ghost predicate SparesLocally(step: Step, x: string) {
    match step
    case Fetch(q) => q != x
    case RemoveLocalFile(q) => q != x
    case RemoveLocalFolder(q) => q != x
    case RenameLocal(q, to) => q != x && to != x
    case _ => true
  }

  lemma {:induction false} SparedLocally(w: World, steps: seq<Step>, x: string)
    requires x in w.local && forall i :: 0 <= i < |steps| ==> SparesLocally(steps[i], x)
    ensures Get(Carry(w, steps).local, x) == Get(w.local, x)
    decreases steps
  {
    hide Perform, SparesLocally;
    if steps != [] && Perform(w, steps[0]).Some? {
      StepSparesLocally(w, steps[0], x);
      SparedLocally(Perform(w, steps[0]).value, steps[1..], x);
    }
  }

  lemma StepSparesLocally(w: World, step: Step, x: string)
    requires x in w.local && SparesLocally(step, x) && Perform(w, step).Some?
    ensures Get(Perform(w, step).value.local, x) == Get(w.local, x)
  {
  }

  lemma WhereItIs(m: Merge, a: Action)
    requires IsStamp(m.stamp) && m.ActionFor(a.path) == Some(a)
    ensures a.DeleteLocal? || a.RemoveLocalDirectory? ==> a.path in m.local
    ensures a.Download? ==> a.path in m.remote
    ensures !a.KeepBoth? ==> forall c :: !CopiedTo(m, a.path, c)
  {
    hide HoldsOnlyWhatWasSynced, ConflictCopy;
  }

  /** Only the rename of a file set aside under that very name touches what is watched. */
  lemma ActionsSpareLocally(m: Merge, a: Action, seen: Listing, q: string, i: nat)
    requires IsStamp(m.stamp) && Sanctioned(m, a) && Watched(m, q) && (q != a.path || a.Forget?) && i < |Steps(a, seen)|
    requires seen.remote == m.remote && !(i == 0 && (a.KeepBoth? || a.SetAside?) && a.localCopy == q)
    ensures SparesLocally(Steps(a, seen)[i], q)
  {
    hide Merge.ActionFor;
    if !a.KeepBoth? && !a.SetAside? { WhereItIs(m, a); }
  }

  ghost predicate TakesName(attempt: Attempt, q: string) { SetsAside(attempt) && attempt.action.localCopy == q }

  /** What one attempt leaves at a watched name: what was there, or the file it sets aside there. */
  lemma AttemptAt(m: Merge, w: World, attempt: Attempt, seen: Listing, q: string)
    requires IsStamp(m.stamp) && Sanctioned(m, attempt.action) && Watched(m, q) && (q != attempt.action.path || attempt.action.Forget?)
    requires seen.remote == m.remote && q in w.local
    ensures var after := Carry(w, Cut(Steps(attempt.action, seen), attempt.cut));
            || Get(after.local, q) == Get(w.local, q)
            || (TakesName(attempt, q) && w.local[q].File? && attempt.action.path in w.local && w.local[attempt.action.path].File?
                && Get(after.local, q) == Some(w.local[attempt.action.path]))
  {
    hide Merge.ActionFor, Perform, SparesLocally, Watched;
    var a := attempt.action;
    var all := Steps(a, seen);
    var steps := Cut(all, attempt.cut);
    if TakesName(attempt, q) && steps != [] {
      assert steps[0] == RenameLocal(a.path, q);
      if Perform(w, steps[0]).Some? {
        var next := Perform(w, steps[0]).value;
        RenamePuts(w, a.path, q, next);
        forall i | 0 <= i < |steps[1..]| ensures SparesLocally(steps[1..][i], q) { ActionsSpareLocally(m, a, seen, q, i + 1); }
        SparedLocally(next, steps[1..], q);
      }
    } else {
      forall i | 0 <= i < |steps| ensures SparesLocally(steps[i], q) { ActionsSpareLocally(m, a, seen, q, i); }
      SparedLocally(w, steps, q);
    }
  }

  lemma RenamePuts(w: World, p: string, q: string, next: World)
    requires Perform(w, RenameLocal(p, q)) == Some(next) && q in w.local
    ensures q in next.local && p in w.local && w.local[p].File? && next.local[q] == w.local[p] && w.local[q].File?
  {
  }

  // ---------- what arrives at a name ----------

  /** What a run may have brought to a watched name: what was there, or what a chain of copies leads to it. */
  ghost predicate Arrived(k: Course, q: string, e: Entry)
    requires IsStamp(k.m.stamp)
  {
    || Get(k.start.local, q) == Some(e)
    || (Get(k.start.local, q).Some? && k.start.local[q].File?
        && exists chain :: Leads(k.m, chain, q) && Get(k.m.local, chain[0]) == Some(e) && (q in k.m.local ==> Less(chain[|chain| - 1], q)))
  }

  /** Every attempt comes before the file's own, if it has one. */
  ghost predicate NotYet(m: Merge, attempts: seq<Attempt>, q: string)
    requires IsStamp(m.stamp)
  {
    forall i, c :: 0 <= i < |attempts| && CopiedTo(m, q, c) ==> Before(attempts[i].action, KeepBoth(q, c))
  }

  lemma NotYetBefore(m: Merge, attempts: seq<Attempt>, last: Attempt, q: string)
    requires IsStamp(m.stamp) && NotYet(m, attempts + [last], q)
    ensures NotYet(m, attempts, q) && forall c :: CopiedTo(m, q, c) ==> Before(last.action, KeepBoth(q, c))
  {
    hide Before, Merge.ActionFor;
    var more := attempts + [last];
    forall i, c | 0 <= i < |attempts| && CopiedTo(m, q, c) ensures Before(attempts[i].action, KeepBoth(q, c)) { assert more[i] == attempts[i]; }
    assert more[|attempts|] == last;
  }

  lemma InTurnBefore(m: Merge, attempts: seq<Attempt>, last: Attempt)
    requires IsStamp(m.stamp) && InTurn(attempts + [last]) && (last.action.KeepBoth? || last.action.SetAside?)
    requires CopiedTo(m, last.action.path, last.action.localCopy)
    ensures NotYet(m, attempts, last.action.path)
  {
    hide Less, Merge.ActionFor;
    var more := attempts + [last];
    forall i, c | 0 <= i < |attempts| && CopiedTo(m, last.action.path, c) ensures Before(attempts[i].action, KeepBoth(last.action.path, c)) {
      assert more[i] == attempts[i] && more[|attempts|] == last;
      assert Before(more[i].action, more[|attempts|].action);
    }
  }

  lemma OneMoreLink(m: Merge, chain: seq<string>, p: string, q: string)
    requires IsStamp(m.stamp) && Leads(m, chain, p) && Less(chain[|chain| - 1], p) && CopiedTo(m, p, q)
    ensures Leads(m, chain + [p], q) && (chain + [p])[0] == chain[0] && (chain + [p])[|chain|] == p
  {
    hide Less, Merge.ActionFor;
  }

  /** What arrived at a file in conflict arrives where it is set aside. */
  lemma ArrivesOn(k: Course, p: string, q: string, e: Entry)
    requires IsStamp(k.m.stamp) && Extends(k) && CopiedTo(k.m, p, q) && Arrived(k, p, e) && (q in k.m.local ==> Less(p, q))
    requires Get(k.start.local, q).Some? && k.start.local[q].File?
    ensures Arrived(k, q, e)
  {
    hide Less, Merge.ActionFor;
    CopiedWasChanged(k.m, p, q);
    if Get(k.start.local, p) == Some(e) {
      assert Leads(k.m, [p], q);
      assert [p][0] == p;
    } else {
      var chain :| Leads(k.m, chain, p) && Get(k.m.local, chain[0]) == Some(e) && Less(chain[|chain| - 1], p);
      OneMoreLink(k.m, chain, p, q);
    }
  }

  lemma {:induction false} OnlyChainsArrive(k: Course, attempts: seq<Attempt>, q: string)
    requires IsStamp(k.m.stamp) && Extends(k) && Runnable(k.m, attempts) && InTurn(attempts)
    requires Watched(k.m, q) && q in k.start.local && NotYet(k.m, attempts, q)
    ensures var w := Attempted(k.start, attempts, k.Seen());
            q in w.local && Arrived(k, q, w.local[q]) && (w.local[q].Directory? <==> k.start.local[q].Directory?)
    decreases |attempts|
  {
    hide Merge.ActionFor, Steps, Arrived, Less, Watched, NotYet, InTurn;
    if attempts == [] {
      NothingArrived(k, q);
    } else {
      var rest, last := attempts[..|attempts| - 1], attempts[|attempts| - 1];
      assert attempts == rest + [last];
      FewerInTurn(k.m, rest, last);
      NotYetBefore(k.m, rest, last, q);
      OnlyChainsArrive(k, rest, q);
      OwnAttemptIsLater(k.m, last, q);
      var w := Attempted(k.start, rest, k.Seen());
      AttemptAt(k.m, w, last, k.Seen(), q);
      var after := Attempted(k.start, attempts, k.Seen());
      if Get(after.local, q) != Get(w.local, q) {
        var p := last.action.path;
        SanctionedCopy(k.m, last.action);
        CopiedWasChanged(k.m, p, q);
        InTurnBefore(k.m, rest, last);
        InConflict(k.m, p, q);
        OnlyChainsArrive(k, rest, p);
        CopyIsLater(k.m, last, q);
        ArrivesOn(k, p, q, w.local[p]);
      }
    }
  }

  lemma NothingArrived(k: Course, q: string)
    requires IsStamp(k.m.stamp) && q in k.start.local
    ensures Arrived(k, q, k.start.local[q])
  {
  }

  lemma FewerInTurn(m: Merge, rest: seq<Attempt>, last: Attempt)
    requires IsStamp(m.stamp) && Runnable(m, rest + [last]) && InTurn(rest + [last])
    ensures Runnable(m, rest) && InTurn(rest) && Sanctioned(m, last.action)
  {
    hide Before, Merge.ActionFor;
    var more := rest + [last];
    assert more[|rest|] == last;
    assert forall i :: 0 <= i < |rest| ==> more[i] == rest[i];
  }

  lemma InConflict(m: Merge, p: string, c: string)
    requires IsStamp(m.stamp) && CopiedTo(m, p, c)
    ensures Watched(m, p)
  {
  }

  lemma OwnAttemptIsLater(m: Merge, last: Attempt, q: string)
    requires IsStamp(m.stamp) && Watched(m, q) && Sanctioned(m, last.action)
    requires forall c :: CopiedTo(m, q, c) ==> Before(last.action, KeepBoth(q, c))
    ensures q != last.action.path || last.action.Forget?
  {
    hide Merge.ActionFor, HoldsOnlyWhatWasSynced;
    if c :| CopiedTo(m, q, c) {
      if q == last.action.path {
        ActionOfConflict(m, last.action, c);
        LessIrreflexive(q);
      }
    } else if q == last.action.path {
      NothingForAFreeName(m, q);
      if last.action.SetAside? { SanctionedCopy(m, last.action); }
    }
  }

  lemma ActionOfConflict(m: Merge, a: Action, c: string)
    requires IsStamp(m.stamp) && CopiedTo(m, a.path, c) && Sanctioned(m, a)
    ensures a == KeepBoth(a.path, c) || a == SetAside(a.path, c)
  {
    hide Merge.ActionFor;
  }

  lemma CopyIsLater(m: Merge, last: Attempt, q: string)
    requires IsStamp(m.stamp) && Watched(m, q) && (last.action.KeepBoth? || last.action.SetAside?)
    requires forall c :: CopiedTo(m, q, c) ==> Before(last.action, KeepBoth(q, c))
    ensures q in m.local ==> Less(last.action.path, q)
  {
    hide Merge.ActionFor, Less;
  }

  // ---------- every chain can be carried out ----------

  function Target(chain: seq<string>, x: string, i: nat): string { if i + 1 < |chain| then chain[i + 1] else x }

  /** The first `n` files of a chain set aside, each cut off right after the rename. */
  function AsidesOf(rule: Rule, chain: seq<string>, x: string, n: nat): seq<Attempt>
    requires n <= |chain|
  {
    seq(n, i requires 0 <= i < n => SettingAside(rule, chain[i], Target(chain, x, i)))
  }

  lemma {:induction false} ChainRises(m: Merge, chain: seq<string>, x: string, i: nat, j: nat)
    requires IsStamp(m.stamp) && Leads(m, chain, x) && i < j < |chain|
    ensures Less(chain[i], chain[j])
    decreases j - i
  {
    hide Less, Merge.ActionFor;
    if i + 1 < j {
      ChainRises(m, chain, x, i + 1, j);
      LessTransitive(chain[i], chain[i + 1], chain[j]);
    }
  }

  lemma ChainIsInTurn(k: Course, chain: seq<string>, x: string, n: nat)
    requires IsStamp(k.m.stamp) && Leads(k.m, chain, x) && n <= |chain|
    ensures var attempts := AsidesOf(k.rule, chain, x, n); Runnable(k.m, attempts) && InTurn(attempts) && AllObey(k.rule, attempts)
  {
    hide Less, Merge.ActionFor, SettingAside, Obeys;
    var attempts := AsidesOf(k.rule, chain, x, n);
    forall i | 0 <= i < n ensures Sanctioned(k.m, attempts[i].action) && Obeys(k.rule, attempts[i].action) && attempts[i].action.path == chain[i] {
      AsideFollows(k, chain[i], Target(chain, x, i));
    }
    forall i, j | 0 <= i < j < n ensures Before(attempts[i].action, attempts[j].action) && attempts[i].action.path != attempts[j].action.path {
      ChainRises(k.m, chain, x, i, j);
      LessIrreflexive(chain[i]);
      OnItsTurn(k, chain, x, i, j);
    }
  }

  lemma OnItsTurn(k: Course, chain: seq<string>, x: string, i: nat, j: nat)
    requires i < |chain| && j < |chain| && Less(chain[i], chain[j])
    ensures Before(SettingAside(k.rule, chain[i], Target(chain, x, i)).action, SettingAside(k.rule, chain[j], Target(chain, x, j)).action)
  {
    hide Less;
  }

  /** So far the first file of the chain has come to the next place, and nothing else beyond was touched. */
  ghost predicate CarriedTo(k: Course, w: World, chain: seq<string>, x: string, n: nat)
    requires 0 < n <= |chain|
  {
    && Get(w.local, Target(chain, x, n - 1)) == Get(k.m.local, chain[0])
    && (forall i :: n < i < |chain| ==> Get(w.local, chain[i]) == Get(k.start.local, chain[i]))
    && (n < |chain| ==> Get(w.local, x) == Get(k.start.local, x))
  }

  lemma {:induction false} ChainCarries(k: Course, chain: seq<string>, x: string, n: nat)
    requires IsStamp(k.m.stamp) && Extends(k) && Leads(k.m, chain, x) && 0 < n <= |chain|
    requires x !in k.m.local && x in k.start.local && k.start.local[x].File?
    ensures CarriedTo(k, Attempted(k.start, AsidesOf(k.rule, chain, x, n), k.Seen()), chain, x, n)
  {
    hide Less, Merge.ActionFor, SettingAside, Attempted, CarriedTo;
    var before := Attempted(k.start, AsidesOf(k.rule, chain, x, n - 1), k.Seen());
    var p, q := chain[n - 1], Target(chain, x, n - 1);
    if n == 1 {
      NothingDone(k);
      assert AsidesOf(k.rule, chain, x, 0) == [];
    } else {
      ChainCarries(k, chain, x, n - 1);
    }
    AsidesMore(k.rule, chain, x, n);
    HereAndThere(k, before, chain, x, n);
    AsideRenames(k.start, AsidesOf(k.rule, chain, x, n - 1), k.rule, p, q, k.Seen());
    RenamedOn(k, before, chain, x, n);
  }

  lemma NothingDone(k: Course)
    ensures Attempted(k.start, [], k.Seen()) == k.start
  {
  }

  lemma AsidesMore(rule: Rule, chain: seq<string>, x: string, n: nat)
    requires 0 < n <= |chain|
    ensures AsidesOf(rule, chain, x, n) == AsidesOf(rule, chain, x, n - 1) + [SettingAside(rule, chain[n - 1], Target(chain, x, n - 1))]
  {
    hide SettingAside;
  }

  /** The file to be renamed is there, and no folder is in its way. */
  lemma HereAndThere(k: Course, w: World, chain: seq<string>, x: string, n: nat)
    requires IsStamp(k.m.stamp) && Extends(k) && Leads(k.m, chain, x) && 0 < n <= |chain|
    requires x !in k.m.local && x in k.start.local && k.start.local[x].File?
    requires if n == 1 then w == k.start else CarriedTo(k, w, chain, x, n - 1)
    ensures var p, q := chain[n - 1], Target(chain, x, n - 1);
            && Get(w.local, p) == Get(k.m.local, chain[0]) && p in w.local && w.local[p].File? && Get(w.local, q) != Some(Directory)
            && (forall i :: n - 1 < i < |chain| ==> Get(w.local, chain[i]) == Get(k.start.local, chain[i])) && Get(w.local, x) == Get(k.start.local, x)
  {
    hide Less, Merge.ActionFor;
    CopiedWasChanged(k.m, chain[0], Target(chain, x, 0));
    if n < |chain| { CopiedWasChanged(k.m, chain[n], Target(chain, x, n)); }
  }

  lemma RenamedOn(k: Course, w: World, chain: seq<string>, x: string, n: nat)
    requires IsStamp(k.m.stamp) && Extends(k) && Leads(k.m, chain, x) && 0 < n <= |chain| && x !in k.m.local
    requires chain[n - 1] in w.local && Get(w.local, chain[n - 1]) == Get(k.m.local, chain[0])
    requires (forall i :: n - 1 < i < |chain| ==> Get(w.local, chain[i]) == Get(k.start.local, chain[i])) && Get(w.local, x) == Get(k.start.local, x)
    ensures CarriedTo(k, Renamed(w, chain[n - 1], Target(chain, x, n - 1)), chain, x, n)
  {
    hide Less, Merge.ActionFor;
    forall i | 0 <= i < |chain| ensures chain[i] in k.m.local { CopiedWasChanged(k.m, chain[i], Target(chain, x, i)); }
    forall i | n < i < |chain| ensures chain[i] != chain[n - 1] && chain[i] != chain[n] {
      ChainRises(k.m, chain, x, n - 1, i);
      ChainRises(k.m, chain, x, n, i);
      LessIrreflexive(chain[i]);
    }
  }

  /** A narrowed pass, cut anywhere, after which `x` is not what it was. */
  ghost predicate Changes(h: Held, k: Course, attempts: seq<Attempt>, x: string)
    requires IsStamp(k.m.stamp)
  {
    Narrowed(h, k.m, attempts) && Get(Attempted(k.start, attempts, k.Seen()).local, x) != Get(k.start.local, x)
  }

  /**
    A local entry a pass does not look at can be changed by it, cut off anywhere, exactly when it is a
    file and something else is set aside under its name. A folder stays, and so does a file of that content.
   */
  lemma BystandersStay(h: Held, k: Course, x: string)
    requires IsStamp(k.m.stamp) && Extends(k) && k.rule == RuleOf(h, k.m)
    requires x in k.start.local && x !in k.m.local && x !in k.m.remote
    ensures (exists attempts :: Changes(h, k, attempts, x)) <==> GetsAnother(k, x)
  {
    hide Merge.ActionFor, Narrowed, Runnable, InTurn, AllObey, Attempted, RuleOf, NotYet, Extends, WasSetAside, Less, CopiedTo;
    if GetsAnother(k, x) {
      var chain :| Leads(k.m, chain, x) && Get(k.m.local, chain[0]) != Some(k.start.local[x]);
      ChainIsInTurn(k, chain, x, |chain|);
      ChainCarries(k, chain, x, |chain|);
      var narrowed := PartIsNarrowed(h, k, AsidesOf(k.rule, chain, x, |chain|));
      assert Changes(h, k, narrowed, x);
    }
    if attempts :| Changes(h, k, attempts, x) {
      NarrowedAreRunnable(h, k.m, attempts);
      NoCopyOfIts(k.m, attempts, x);
      OnlyChainsArrive(k, attempts, x);
      var w := Attempted(k.start, attempts, k.Seen());
      var chain :| Leads(k.m, chain, x) && Get(k.m.local, chain[0]) == Some(w.local[x]);
    }
  }

  lemma NoCopyOfIts(m: Merge, attempts: seq<Attempt>, x: string)
    requires IsStamp(m.stamp) && x !in m.local
    ensures NotYet(m, attempts, x)
  {
    hide Merge.ActionFor;
    forall c ensures !CopiedTo(m, x, c) { if CopiedTo(m, x, c) { CopiedWasChanged(m, x, c); } }
  }
}

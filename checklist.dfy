/**
 * Checklist progress (app/actions/checklistActions.ts): for each (user id, checklist slug)
 * the database keeps the ids of the completed steps as a JSON list. A step is toggled by
 * filtering it out when present and appending it when absent; a reset deletes the row.
 */
module Checklist {
  import opened Wrappers
  import opened Text
  import opened Store
  import opened Auth

  /** `steps.filter((s) => s !== id)`. */
  function RemoveAll(steps: seq<string>, id: string): (r: seq<string>)
    ensures |r| <= |steps|
    ensures id !in r
    ensures forall x :: x in r <==> x in steps && x != id
  {
    if steps == [] then []
    else (if steps[0] == id then [] else [steps[0]]) + RemoveAll(steps[1..], id)
  }

  /** Filtering a concatenation filters each part. */
  lemma {:induction false} RemoveAllAppend(a: seq<string>, b: seq<string>, id: string)
    ensures RemoveAll(a + b, id) == RemoveAll(a, id) + RemoveAll(b, id)
  {
    if a == [] {
      assert a + b == b;
    } else {
      assert (a + b)[1..] == a[1..] + b;
      RemoveAllAppend(a[1..], b, id);
    }
  }

  /** Filtering out an id that is not there changes nothing. */
  lemma {:induction false} RemoveAllAbsent(steps: seq<string>, id: string)
    requires id !in steps
    ensures RemoveAll(steps, id) == steps
  {
    if steps != [] {
      RemoveAllAbsent(steps[1..], id);
      assert [steps[0]] + steps[1..] == steps;
    }
  }

  /** No step id occurs twice. */
  predicate NoDuplicates(steps: seq<string>) {
    forall i, j :: 0 <= i < j < |steps| ==> steps[i] != steps[j]
  }

  /** Filtering keeps a list free of duplicates. */
  lemma {:induction false} RemoveAllNoDuplicates(steps: seq<string>, id: string)
    requires NoDuplicates(steps)
    ensures NoDuplicates(RemoveAll(steps, id))
  {
    if steps != [] {
      RemoveAllNoDuplicates(steps[1..], id);
      var rest := RemoveAll(steps[1..], id);
      assert steps[0] !in steps[1..] by {
        forall j | 0 <= j < |steps[1..]| ensures steps[1..][j] != steps[0] {
          assert steps[1..][j] == steps[j + 1];
        }
      }
      assert steps[0] !in rest;
    }
  }

  /** The toggle: remove every occurrence of a present id, append an absent one at the end. */
  function Toggled(steps: seq<string>, id: string): (r: seq<string>)
    ensures id in r <==> id !in steps
    ensures forall x :: x != id ==> (x in r <==> x in steps)
  {
    if id in steps then RemoveAll(steps, id) else steps + [id]
  }

  /** The other ids keep their relative order: with `id` filtered out, nothing changed. */
  lemma ToggleKeepsOthersInOrder(steps: seq<string>, id: string)
    ensures RemoveAll(Toggled(steps, id), id) == RemoveAll(steps, id)
  {
    if id in steps {
      RemoveAllAbsent(RemoveAll(steps, id), id);
    } else {
      RemoveAllAppend(steps, [id], id);
      assert [id][1..] == [];
    }
  }

  /** Toggling keeps a list free of duplicates. */
  lemma ToggleKeepsNoDuplicates(steps: seq<string>, id: string)
    requires NoDuplicates(steps)
    ensures NoDuplicates(Toggled(steps, id))
  {
    if id in steps {
      RemoveAllNoDuplicates(steps, id);
    }
  }

  /**
   * Toggling twice restores the ids; when the id was absent, it restores the very list.
   * (When it was present, its occurrences end up as one, at the end.)
   */
  lemma ToggleTwice(steps: seq<string>, id: string)
    ensures forall x :: x in Toggled(Toggled(steps, id), id) <==> x in steps
    ensures id !in steps ==> Toggled(Toggled(steps, id), id) == steps
  {
    if id !in steps {
      RemoveAllAppend(steps, [id], id);
      RemoveAllAbsent(steps, id);
      assert [id][1..] == [];
    }
  }

  /**
   * `getChecklistProgress` for the session's user id: [] without a truthy user id, without a
   * row, or when the stored text does not parse; otherwise the stored list.
   */
  function GetChecklistProgress(progress: map<(string, string), StoredSteps>, userId: Option<string>,
                                slug: string): (steps: seq<string>)
    ensures !Truthy(userId) ==> steps == []
    ensures Truthy(userId) && (userId.value, slug) !in progress ==> steps == []
    ensures Truthy(userId) && (userId.value, slug) in progress && progress[(userId.value, slug)].Unparsable? ==>
              steps == []
    ensures Truthy(userId) && (userId.value, slug) in progress && progress[(userId.value, slug)].StepsJson? ==>
              steps == progress[(userId.value, slug)].steps
  {
    if !Truthy(userId) || (userId.value, slug) !in progress then []
    else
      match progress[(userId.value, slug)]
      case StepsJson(stored) => stored
      case Unparsable => []
  }

  /**
   * `toggleChecklistStep`: signed out, `{ ok: false, completedSteps: [] }` and nothing is
   * written; signed in, the toggled list is stored under (user id, slug), returned, and
   * read back by `getChecklistProgress`.
   */
  method ToggleChecklistStep(db: Database, session: SessionCookie, slug: string, stepId: string)
    returns (ok: bool, completedSteps: seq<string>)
    modifies db`checklistProgress
    ensures !Truthy(session.GetSessionUserId()) ==>
              !ok && completedSteps == [] && db.checklistProgress == old(db.checklistProgress)
    ensures Truthy(session.GetSessionUserId()) ==>
              var userId := session.GetSessionUserId();
              && ok
              && completedSteps == Toggled(GetChecklistProgress(old(db.checklistProgress), userId, slug), stepId)
              && db.checklistProgress == old(db.checklistProgress)[(userId.value, slug) := StepsJson(completedSteps)]
              && GetChecklistProgress(db.checklistProgress, userId, slug) == completedSteps
  {
    var userId := session.GetSessionUserId();
    if !Truthy(userId) {
      return false, [];
    }
    var key := (userId.value, slug);
    completedSteps := [];
    if key in db.checklistProgress {
      match db.checklistProgress[key]
      case StepsJson(stored) => completedSteps := stored;
      case Unparsable => completedSteps := [];
    }
    if stepId in completedSteps {
      completedSteps := RemoveAll(completedSteps, stepId);
    } else {
      completedSteps := completedSteps + [stepId];
    }
    db.checklistProgress := db.checklistProgress[key := StepsJson(completedSteps)];
    ok := true;
  }

  /**
   * `resetChecklistProgress`: signed out, `{ ok: false }` and nothing is written; signed in,
   * the (user id, slug) row is deleted, so progress reads back as [], and every other row
   * is kept.
   */
  method ResetChecklistProgress(db: Database, session: SessionCookie, slug: string) returns (ok: bool)
    modifies db`checklistProgress
    ensures !Truthy(session.GetSessionUserId()) ==> !ok && db.checklistProgress == old(db.checklistProgress)
    ensures Truthy(session.GetSessionUserId()) ==>
              var userId := session.GetSessionUserId();
              && ok
              && db.checklistProgress == old(db.checklistProgress) - {(userId.value, slug)}
              && GetChecklistProgress(db.checklistProgress, userId, slug) == []
  {
    var userId := session.GetSessionUserId();
    if !Truthy(userId) {
      return false;
    }
    db.checklistProgress := db.checklistProgress - {(userId.value, slug)};
    ok := true;
  }
}

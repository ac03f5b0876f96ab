/**
 * The service reconciliation of a swarm redeployment: the services running
 * before the deployment are recorded in a set; when that set is not empty
 * the deployment forces an update of every service that still runs after
 * it and was running before, in the order the post-deployment query lists
 * them.
 */
module Swarm {

  /** The services of the post-deployment listing that were running before, in listing order. */
  function ServicesToUpdate(after: seq<string>, running: set<string>): seq<string> {
    if after == [] then []
    else
      var id := after[|after| - 1];
      ServicesToUpdate(after[..|after| - 1], running) + (if id in running then [id] else [])
  }

  /** `sub` is `s` with some elements left out and the others kept in order. */
  predicate Subsequence(sub: seq<string>, s: seq<string>) {
    || sub == []
    || (&& s != []
        && (|| (sub[|sub| - 1] == s[|s| - 1] && Subsequence(sub[..|sub| - 1], s[..|s| - 1]))
            || Subsequence(sub, s[..|s| - 1])))
  }

  /** Exactly the listed services that were running before are updated. */
  lemma {:induction false} ServicesToUpdateMembers(after: seq<string>, running: set<string>)
    ensures forall id :: id in ServicesToUpdate(after, running) <==> id in after && id in running
  {
    if after != [] {
      var init := after[..|after| - 1];
      ServicesToUpdateMembers(init, running);
      assert after == init + [after[|after| - 1]];
    }
  }

  /**
   * A service is updated as often as the post-deployment listing names it
   * when it was running before, and never otherwise.
   */
  lemma {:induction false} ServicesToUpdateCounts(after: seq<string>, running: set<string>, id: string)
    ensures multiset(ServicesToUpdate(after, running))[id] == if id in running then multiset(after)[id] else 0
  {
    if after != [] {
      var init, last := after[..|after| - 1], after[|after| - 1];
      ServicesToUpdateCounts(init, running, id);
      assert after == init + [last];
    }
  }

  /** The updates follow the listing order: they form a subsequence of it. */
  lemma {:induction false} ServicesToUpdateOrdered(after: seq<string>, running: set<string>)
    ensures Subsequence(ServicesToUpdate(after, running), after)
  {
    if after != [] {
      var init := after[..|after| - 1];
      var id := after[|after| - 1];
      var r0 := ServicesToUpdate(init, running);
      ServicesToUpdateOrdered(init, running);
      if id in running {
        var r := r0 + [id];
        assert ServicesToUpdate(after, running) == r;
        assert r[..|r| - 1] == r0 && r[|r| - 1] == after[|after| - 1];
      } else {
        assert ServicesToUpdate(after, running) == r0 + [] == r0;
      }
    }
  }

  /** One more listed service adds itself exactly when it was running before. */
  lemma ServicesToUpdateStep(after: seq<string>, k: nat, running: set<string>)
    requires k < |after|
    ensures ServicesToUpdate(after[..k + 1], running)
      == ServicesToUpdate(after[..k], running) + (if after[k] in running then [after[k]] else [])
  {
    assert after[..k + 1][..k] == after[..k];
  }

  /** Listing a service that was not running before changes nothing. */
  lemma {:induction false} ServicesToUpdateSkipsNew(after: seq<string>, running: set<string>, id: string)
    requires id !in running
    ensures ServicesToUpdate(after + [id], running) == ServicesToUpdate(after, running)
  {
    assert (after + [id])[..|after|] == after;
  }

  /** The set of service identifiers the pre-deployment query reported. */
  function IdSet(ids: seq<string>): set<string> {
    set id | id in ids
  }

  /**
   * The loop that fills `runningServices`: every reported identifier, and
   * nothing else, is in the set.
   */
  method RunningServices(serviceIDs: seq<string>) returns (runningServices: set<string>)
    ensures forall id :: id in runningServices <==> id in serviceIDs
  {
    runningServices := {};
    var k := 0;
    while k < |serviceIDs|
      invariant 0 <= k <= |serviceIDs|
      invariant forall id :: id in runningServices <==> id in serviceIDs[..k]
    {
      runningServices := runningServices + {serviceIDs[k]};
      k := k + 1;
    }
    assert serviceIDs[..k] == serviceIDs;
  }

  /** The set of running services is empty exactly when the query reported no identifier. */
  lemma ForceUpdateIffRunning(ids: seq<string>)
    ensures |IdSet(ids)| > 0 <==> ids != []
  {
    if ids != [] {
      assert ids[0] in IdSet(ids);
    }
  }
}

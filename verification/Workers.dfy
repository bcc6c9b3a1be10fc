/** The connection workers of `receive_service` (src/bin/hirodrop-gui.rs:2619-2636, :2691-2698). */
module Workers {
  import opened Prelude

  type Handle = nat

  const MAX_CONNECTION_WORKERS: nat := 8

  /** One turn of the service loop: what `is_finished` says of each handle when it is asked, as a function of
      the handle and of how many times the scan has asked before, and the connection that waits, if any. */
  datatype Turn = Turn(isFinished: (Handle, nat) -> bool, connection: Option<Handle>)

  /** `swap_remove`: the last element takes the place of the removed one. */
  function SwapRemove(s: seq<Handle>, i: nat): (r: seq<Handle>)
    requires i < |s|
    ensures |r| == |s| - 1
  {
    s[i := s[|s| - 1]][..|s| - 1]
  }

  /** The last handle takes the removed one's place, and is asked next; all others stay where they are. */
  lemma SwapRemoveAt(s: seq<Handle>, i: nat, j: nat)
    requires i < |s| && j < |s| - 1
    ensures SwapRemove(s, i)[j] == s[if j == i then |s| - 1 else j]
  {
  }

  lemma SwapRemoveKeeps(s: seq<Handle>, i: nat)
    requires i < |s|
    ensures multiset(SwapRemove(s, i)) + multiset{s[i]} == multiset(s)
    ensures SwapRemove(s, i)[..i] == s[..i]
  {
    var n := |s| - 1;
    var front, last := s[..n], s[n];
    assert s == front + [last];
    if i == n {
      assert SwapRemove(s, i) == front;
    } else {
      assert SwapRemove(s, i) == front[i := last];
      assert front[i] == s[i];
      assert multiset(front[i := last]) == multiset(front) - multiset{front[i]} + multiset{last};
    }
  }

  /** Every handle is asked once; these are the answers. */
  datatype Asked = Asked(handle: Handle, finished: bool)

  function Handles(asked: seq<Asked>, finished: bool): seq<Handle> {
    if asked == [] then []
    else
      var last := asked[|asked| - 1];
      Handles(asked[..|asked| - 1], finished) + if last.finished == finished then [last.handle] else []
  }

  lemma HandlesPush(asked: seq<Asked>, a: Asked, finished: bool)
    ensures Handles(asked + [a], finished) == Handles(asked, finished) + if a.finished == finished then [a.handle] else []
  {
    assert (asked + [a])[..|asked|] == asked;
  }

  /** Half-way through the scan: what has answered that it has finished is gone, what has answered otherwise
      stands before `index`, and the rest has not been asked. */
  ghost predicate Scanned(before: seq<Handle>, workers: seq<Handle>, index: nat, asked: seq<Asked>) {
    && index <= |workers| && |asked| + (|workers| - index) == |before|
    && workers[..index] == Handles(asked, false)
    && multiset(Handles(asked, true)) + multiset(workers) == multiset(before)
  }

  lemma ScanFinished(before: seq<Handle>, workers: seq<Handle>, index: nat, asked: seq<Asked>)
    requires Scanned(before, workers, index, asked) && index < |workers|
    ensures Scanned(before, SwapRemove(workers, index), index, asked + [Asked(workers[index], true)])
    ensures multiset(Handles(asked + [Asked(workers[index], true)], true)) == multiset(Handles(asked, true)) + multiset{workers[index]}
  {
    HandlesPush(asked, Asked(workers[index], true), true);
    HandlesPush(asked, Asked(workers[index], true), false);
    SwapRemoveKeeps(workers, index);
    hide Handles, SwapRemove;
  }

  lemma ScanKept(before: seq<Handle>, workers: seq<Handle>, index: nat, asked: seq<Asked>)
    requires Scanned(before, workers, index, asked) && index < |workers|
    ensures Scanned(before, workers, index + 1, asked + [Asked(workers[index], false)])
    ensures Handles(asked + [Asked(workers[index], false)], true) == Handles(asked, true)
  {
    HandlesPush(asked, Asked(workers[index], false), true);
    HandlesPush(asked, Asked(workers[index], false), false);
    hide Handles;
    assert workers[..index + 1] == workers[..index] + [workers[index]];
  }

  /** The answers are those of `is_finished`, each at its own time. */
  predicate Truthful(isFinished: (Handle, nat) -> bool, asked: seq<Asked>) {
    forall i :: 0 <= i < |asked| ==> asked[i].finished == isFinished(asked[i].handle, i)
  }

  lemma TruthfulStart(isFinished: (Handle, nat) -> bool)
    ensures Truthful(isFinished, [])
  {
  }

  lemma TruthfulPush(isFinished: (Handle, nat) -> bool, asked: seq<Asked>, h: Handle)
    requires Truthful(isFinished, asked)
    ensures Truthful(isFinished, asked + [Asked(h, isFinished(h, |asked|))])
  {
  }

  lemma ScanStart(before: seq<Handle>)
    ensures Scanned(before, before, 0, []) && Handles([], true) == []
  {
  }

  lemma ScanEnd(before: seq<Handle>, workers: seq<Handle>, asked: seq<Asked>)
    requires Scanned(before, workers, |workers|, asked)
    ensures workers == Handles(asked, false) && |asked| == |before|
    ensures multiset(Handles(asked, true)) + multiset(Handles(asked, false)) == multiset(before)
  {
    hide Handles;
    assert workers[..|workers|] == workers;
  }

  class Pool {
    var workers: seq<Handle>
    ghost var spawned: multiset<Handle>
    ghost var joined: multiset<Handle>

    /** No handle is lost and none is joined that is still held; never more than eight are held. */
    ghost predicate Valid()
      reads this
    {
      spawned == multiset(workers) + joined && |workers| <= MAX_CONNECTION_WORKERS
    }

    constructor ()
      ensures Valid() && spawned == multiset{} && joined == multiset{}
    {
      workers, spawned, joined := [], multiset{}, multiset{};
    }

    /** The scan asks every handle exactly once, joins exactly those that answer that they have finished, and
        keeps the others in some order. */
    method Reap(isFinished: (Handle, nat) -> bool) returns (ghost asked: seq<Asked>)
      requires Valid()
      modifies this
      ensures Valid() && spawned == old(spawned) && |workers| <= |old(workers)|
      ensures multiset(Handles(asked, true)) + multiset(Handles(asked, false)) == multiset(old(workers))
      ensures |asked| == |old(workers)| && Truthful(isFinished, asked)
      ensures joined == old(joined) + multiset(Handles(asked, true))
      ensures workers == Handles(asked, false)
    {
      hide Handles, Scanned, SwapRemove, Truthful;
      assert Truthful(isFinished, []) by { TruthfulStart(isFinished); }
      asked := [];
      var index, before := 0, |workers|;
      ghost var start := workers;
      ScanStart(start);
      while index < |workers|
        invariant index <= |workers| <= before == |start| && |asked| + (|workers| - index) == before
        invariant Scanned(start, workers, index, asked)
        invariant spawned == old(spawned)
        invariant joined == old(joined) + multiset(Handles(asked, true))
        invariant Truthful(isFinished, asked)
        decreases |workers| - index
      {
        var worker := workers[index];
        var finished := isFinished(worker, before - (|workers| - index));
        if finished {
          ScanFinished(start, workers, index, asked);
          SwapRemoveKeeps(workers, index);
          workers := SwapRemove(workers, index);
          joined := joined + multiset{worker};
        } else {
          ScanKept(start, workers, index, asked);
          index := index + 1;
        }
        TruthfulPush(isFinished, asked, worker);
        asked := asked + [Asked(worker, finished)];
      }
      ScanEnd(start, workers, asked);
    }

    /** One turn: reap, and take a connection only while fewer than eight workers are held. */
    method Serve(turn: Turn) returns (taken: bool)
      requires Valid()
      modifies this
      ensures Valid()
      ensures taken ==> turn.connection.Some?
      ensures spawned == old(spawned) + if taken then multiset{turn.connection.value} else multiset{}
      ensures !taken && turn.connection.Some? ==> |workers| == 8
      ensures old(joined) <= joined
    {
      var _ := Reap(turn.isFinished);
      if |workers| >= MAX_CONNECTION_WORKERS {
        return false;
      }
      if turn.connection.None? {
        return false;
      }
      workers := workers + [turn.connection.value];
      spawned := spawned + multiset{turn.connection.value};
      taken := true;
    }
  }

  function Offered(turns: seq<Turn>): multiset<Handle> {
    if turns == [] then multiset{}
    else Offered(turns[..|turns| - 1]) + var c := turns[|turns| - 1].connection; if c.Some? then multiset{c.value} else multiset{}
  }

  lemma OfferedPush(turns: seq<Turn>, t: Turn)
    ensures Offered(turns + [t]) == Offered(turns) + if t.connection.Some? then multiset{t.connection.value} else multiset{}
  {
    assert (turns + [t])[..|turns|] == turns;
  }

  /** A whole service: over any number of turns at most eight handles are held, and every connection taken up
      is held or has been joined, exactly once. */
  method Service(turns: seq<Turn>) returns (pool: Pool)
    ensures fresh(pool) && pool.Valid() && |pool.workers| <= 8 && pool.spawned <= Offered(turns)
    ensures (forall h :: Offered(turns)[h] <= 1) ==>
              forall h :: h in pool.spawned ==> (h in pool.workers <==> h !in pool.joined) && pool.joined[h] <= 1
  {
    hide Offered;
    pool := new Pool();
    var i := 0;
    while i < |turns|
      invariant 0 <= i <= |turns| && fresh(pool) && pool.Valid()
      invariant pool.spawned <= Offered(turns[..i])
    {
      ghost var before := pool.spawned;
      var taken := pool.Serve(turns[i]);
      Served(turns, i, before, pool.spawned, taken);
      i := i + 1;
    }
    assert turns[..i] == turns;
    HeldOrJoined(pool.spawned, pool.workers, pool.joined, Offered(turns));
  }

  lemma Served(turns: seq<Turn>, i: nat, before: multiset<Handle>, after: multiset<Handle>, taken: bool)
    requires i < |turns| && before <= Offered(turns[..i])
    requires taken ==> turns[i].connection.Some?
    requires after == before + if taken then multiset{turns[i].connection.value} else multiset{}
    ensures after <= Offered(turns[..i + 1])
  {
    hide Offered;
    OfferedPush(turns[..i], turns[i]);
    assert turns[..i] + [turns[i]] == turns[..i + 1];
  }

  lemma HeldOrJoined(spawned: multiset<Handle>, workers: seq<Handle>, joined: multiset<Handle>, offered: multiset<Handle>)
    requires spawned == multiset(workers) + joined && spawned <= offered
    ensures (forall h :: offered[h] <= 1) ==>
              forall h :: h in spawned ==> (h in workers <==> h !in joined) && joined[h] <= 1
  {
    if forall h :: offered[h] <= 1 {
      forall h | h in spawned
        ensures (h in workers <==> h !in joined) && joined[h] <= 1
      {
        assert offered[h] <= 1 && spawned[h] == multiset(workers)[h] + joined[h];
        assert h in workers <==> multiset(workers)[h] > 0;
      }
    }
  }
}

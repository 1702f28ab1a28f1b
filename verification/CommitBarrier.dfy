/**
 Waiting for the local commits: a reader that asks to run after them waits until every mutation
 admitted before it has been released, in whatever order the releases come.
 */
module CommitBarrier {
  datatype Barrier = Barrier(target: nat, reader: nat)

  ghost predicate AllReleased(done: set<nat>, target: nat) {
    forall t :: 1 <= t <= target ==> t in done
  }

  class CommitBarriers {
    var admittedCommits: nat
    var releasedCommits: nat
    var releasedAhead: set<nat>
    var commitBarriers: seq<Barrier>
    /** Every ticket released so far. */
    ghost var done: set<nat>
    /** Every reader that ever asked, with the last ticket admitted before it. */
    ghost var asked: map<nat, nat>
    /** The readers that may run. */
    var reached: set<nat>

    /** `releasedCommits` is the longest prefix that is released; the rest is ahead of it. */
    ghost predicate Counted()
      reads this
    {
      && (forall t :: t in done ==> 1 <= t <= admittedCommits)
      && releasedCommits <= admittedCommits && AllReleased(done, releasedCommits)
      && releasedAhead == set t | t in done && releasedCommits < t
    }

    ghost predicate Settled()
      reads this
    {
      releasedCommits + 1 !in done
    }

    /** The waiting readers are those whose tickets are not all released, in the order they asked. */
    ghost predicate Waiting()
      reads this
    {
      && (forall i, j :: 0 <= i < j < |commitBarriers| ==> commitBarriers[i].target <= commitBarriers[j].target)
      && (forall i, j :: 0 <= i < j < |commitBarriers| ==> commitBarriers[i].reader != commitBarriers[j].reader)
      && (forall b :: b in commitBarriers ==> b.reader in asked && asked[b.reader] == b.target)
      && (forall b :: b in commitBarriers ==> b.reader !in reached && b.target <= admittedCommits)
      && (forall r :: r in asked ==> r in reached || Barrier(asked[r], r) in commitBarriers)
      && reached <= asked.Keys
    }

    /** A reader may run exactly when every mutation admitted before it is released. */
    ghost predicate OpenExactly()
      reads this
    {
      forall r :: r in asked ==> (r in reached <==> AllReleased(done, asked[r]))
    }

    ghost predicate Valid()
      reads this
    {
      Counted() && Settled() && Waiting() && OpenExactly()
    }

    constructor ()
      ensures Valid() && admittedCommits == 0 && done == {} && asked == map[]
    {
      admittedCommits, releasedCommits, releasedAhead, commitBarriers := 0, 0, {}, [];
      done, asked, reached := {}, map[], {};
    }

    method Admit() returns (ticket: nat)
      requires Valid()
      modifies `admittedCommits
      ensures Valid() && ticket == admittedCommits == old(admittedCommits) + 1 && ticket !in done
    {
      admittedCommits := admittedCommits + 1;
      ticket := admittedCommits;
    }

    /** A reader runs at once if nothing is outstanding, and otherwise after what is admitted now. */
    method AfterLocalCommits(reader: nat)
      requires Valid() && reader !in asked
      modifies `commitBarriers, `reached, `asked
      ensures Valid() && asked == old(asked)[reader := admittedCommits]
      ensures reader in reached <==> AllReleased(done, admittedCommits)
    {
      asked := asked[reader := admittedCommits];
      if releasedCommits >= admittedCommits {
        reached := reached + {reader};
      } else {
        assert releasedCommits + 1 !in done;
        commitBarriers := commitBarriers + [Barrier(admittedCommits, reader)];
      }
    }

    /** Counts the released prefix on as far as it goes. */
    method Advance()
      requires Counted()
      modifies `releasedCommits, `releasedAhead
      ensures Counted() && Settled() && old(releasedCommits) <= releasedCommits
    {
      while releasedCommits + 1 in releasedAhead
        invariant Counted() && old(releasedCommits) <= releasedCommits
        decreases admittedCommits - releasedCommits
      {
        releasedAhead := releasedAhead - {releasedCommits + 1};
        releasedCommits := releasedCommits + 1;
      }
    }

    /** Opens the barrier at the head of the queue. */
    method OpenFirst()
      requires Counted() && Waiting() && commitBarriers != [] && commitBarriers[0].target <= releasedCommits
      requires forall r :: r in reached ==> r in asked && AllReleased(done, asked[r])
      modifies `commitBarriers, `reached
      ensures Waiting() && |commitBarriers| == |old(commitBarriers)| - 1
      ensures forall r :: r in reached ==> r in asked && AllReleased(done, asked[r])
    {
      var b := commitBarriers[0];
      assert commitBarriers == [b] + commitBarriers[1..];
      reached := reached + {b.reader};
      commitBarriers := commitBarriers[1..];
    }

    /** Targets rise along the queue, so an unreached head means that no barrier is reached. */
    lemma NoneLeftReached()
      requires Counted() && Settled() && Waiting()
      requires commitBarriers == [] || releasedCommits < commitBarriers[0].target
      ensures forall r :: r in asked && r !in reached ==> !AllReleased(done, asked[r])
    {
      forall r | r in asked && r !in reached ensures !AllReleased(done, asked[r]) {
        assert Barrier(asked[r], r) in commitBarriers;
        assert commitBarriers[0].target <= asked[r];
        assert 1 <= releasedCommits + 1 <= asked[r];
      }
    }

    /** Opens barriers from the head of the queue while they are reached. */
    method OpenReached()
      requires Counted() && Settled() && Waiting()
      requires forall r :: r in reached ==> r in asked && AllReleased(done, asked[r])
      modifies `commitBarriers, `reached
      ensures Valid()
    {
      while commitBarriers != [] && commitBarriers[0].target <= releasedCommits
        invariant Waiting()
        invariant forall r :: r in reached ==> r in asked && AllReleased(done, asked[r])
        decreases |commitBarriers|
      {
        OpenFirst();
      }
      NoneLeftReached();
    }

    /** One ticket is released, exactly once. */
    method ReleaseCommits(ticket: nat)
      requires Valid() && 1 <= ticket <= admittedCommits && ticket !in done
      modifies `releasedCommits, `releasedAhead, `commitBarriers, `reached, `done
      ensures Valid() && done == old(done) + {ticket}
      ensures old(releasedCommits) <= releasedCommits && old(reached) <= reached
    {
      done := done + {ticket};
      releasedAhead := releasedAhead + {ticket};
      Advance();
      OpenReached();
    }
  }

  /** The counters and the open barriers depend on which tickets are released, not on their order. */
  lemma OrderIsIrrelevant(a: CommitBarriers, b: CommitBarriers)
    requires a.Valid() && b.Valid() && a.done == b.done && a.asked == b.asked
    ensures a.releasedCommits == b.releasedCommits && a.releasedAhead == b.releasedAhead && a.reached == b.reached
  {
    assert a.releasedCommits + 1 in b.done || b.releasedCommits <= a.releasedCommits;
    assert b.releasedCommits + 1 in a.done || a.releasedCommits <= b.releasedCommits;
    forall r ensures r in a.reached <==> r in b.reached {
      assert r in a.reached ==> r in a.asked;
      assert r in b.reached ==> r in b.asked;
    }
  }
}

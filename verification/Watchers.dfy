/** Admission of watchers to an ephemeral space, limited for the space and for each principal. */
module Watchers {
  class WatcherCounts {
    const maximumWatchersPerSpace: nat
    const maximumWatchersPerPrincipal: nat
    var watchers: nat
    var principalWatchers: map<string, nat>
    /** The principals of all watchers admitted and not yet released. */
    ghost var held: multiset<string>

    /** The counts are those of the watchers held, within their limits, and none is kept at zero. */
    ghost predicate Valid()
      reads this
    {
      && watchers == |held| <= maximumWatchersPerSpace
      && (forall p :: p in principalWatchers <==> p in held)
      && (forall p :: p in principalWatchers ==> principalWatchers[p] == held[p] <= maximumWatchersPerPrincipal)
    }

    constructor (maximumWatchersPerSpace: nat, maximumWatchersPerPrincipal: nat)
      ensures Valid() && held == multiset{}
      ensures this.maximumWatchersPerSpace == maximumWatchersPerSpace
      ensures this.maximumWatchersPerPrincipal == maximumWatchersPerPrincipal
    {
      this.maximumWatchersPerSpace := maximumWatchersPerSpace;
      this.maximumWatchersPerPrincipal := maximumWatchersPerPrincipal;
      watchers, principalWatchers, held := 0, map[], multiset{};
    }

    method AdmitWatcher(principal: string) returns (ok: bool)
      requires Valid()
      modifies this
      ensures Valid()
      ensures ok <==> |old(held)| < maximumWatchersPerSpace && old(held)[principal] < maximumWatchersPerPrincipal
      ensures held == if ok then old(held) + multiset{principal} else old(held)
    {
      if watchers >= maximumWatchersPerSpace { return false; }
      var already := if principal in principalWatchers then principalWatchers[principal] else 0;
      if already >= maximumWatchersPerPrincipal { return false; }
      watchers := watchers + 1;
      principalWatchers := principalWatchers[principal := already + 1];
      held := held + multiset{principal};
      ok := true;
    }

    /** Every admitted watcher is released once. */
    method ReleaseWatcher(principal: string)
      requires Valid() && principal in held
      modifies this
      ensures Valid() && held == old(held) - multiset{principal}
    {
      watchers := watchers - 1;
      var remaining := principalWatchers[principal] - 1;
      if remaining == 0 {
        principalWatchers := principalWatchers - {principal};
      } else {
        principalWatchers := principalWatchers[principal := remaining];
      }
      held := held - multiset{principal};
    }
  }
}

/** The thread-safe offer queue as the object the legs share. */
module OfferPool {
  import opened Prelude
  import opened FleetModel
  import opened FleetInvariants

  /** What one `get` answers and leaves behind. */
  predicate GetIsTold(queued: seq<Offer>, used: nat, maxRefills: nat, listing: Option<seq<Offer>>,
                      got: Got, left: seq<Offer>, usedNow: nat) {
    && (got.Exhausted? <==> queued == [] && (used >= maxRefills || listing == Some([])))
    && (got.ListingFailed? <==> queued == [] && used < maxRefills && listing.None?)
    && (match got
        case Offered(o) =>
          (queued == [] ==> listing.Some?) && [o] + left == (if queued == [] then listing.value else queued)
        case _ => left == [])
    && usedNow == used + if queued == [] && used < maxRefills then 1 else 0
  }

  /** The transition every theorem about runs is stated over: an offer if one is queued or listed,
      a refill exactly when the queue is drained and one is left. */
  lemma PoolGetTells(p: Pool, maxRefills: nat, listing: Option<seq<Offer>>)
    ensures var (left, got) := PoolGet(p, maxRefills, listing);
            GetIsTold(p.queue, p.refills, maxRefills, listing, got, left.queue, left.refills)
  {
    var (left, got) := PoolGet(p, maxRefills, listing);
    if got.Offered? {
      var from := if p.queue == [] then listing.value else p.queue;
      assert from == [from[0]] + from[1..];
    }
  }

  class Queue {
    const maxRefills: nat
    var offers: seq<Offer>
    var refills: nat
    ghost var batches: seq<seq<Offer>> // every listing the marketplace answered
    ghost var handed: seq<Offer> // every offer given to a leg, in order

    ghost function Abstract(): Pool
      reads this
    {
      Pool(offers, refills, batches, handed)
    }

    ghost predicate Valid()
      reads this
    {
      PoolConserves(Abstract(), maxRefills)
    }

    constructor (maxRefills: nat, listing: seq<Offer>)
      ensures Valid() && this.maxRefills == maxRefills
      ensures Abstract() == Pool(listing, 0, [listing], [])
    {
      this.maxRefills := maxRefills;
      offers, refills, batches, handed := listing, 0, [listing], [];
      new;
      assert [listing][..0] == [];
      assert Concat([listing]) == listing;
    }

    /** Next offer, refilling once if drained; the model's transition, in place. */
    method Get(listing: Option<seq<Offer>>) returns (got: Got)
      requires Valid()
      modifies this
      ensures Valid()
      ensures (Abstract(), got) == PoolGet(old(Abstract()), maxRefills, listing)
      ensures GetIsTold(old(offers), old(refills), maxRefills, listing, got, offers, refills)
      ensures handed == old(handed) + if got.Offered? then [got.offer] else []
    {
      PoolGetConserves(Abstract(), maxRefills, listing);
      PoolGetTells(Abstract(), maxRefills, listing);
      if offers == [] && refills < maxRefills {
        refills := refills + 1;
        if listing.None? {
          return ListingFailed;
        }
        batches := batches + [listing.value];
        offers := offers + listing.value;
        assert offers == listing.value;
      }
      if offers == [] {
        return Exhausted;
      }
      got := Offered(offers[0]);
      handed := handed + [offers[0]];
      offers := offers[1..];
    }
  }
}

/** The set of identifiers whose download is under way (`idsInProgress`, a sync.Map used
    only through LoadOrStore and Delete), modelled sequentially. */
module Guard {

  class InFlight {
    var ids: set<string>

    constructor ()
      ensures ids == {}
    {
      ids := {};
    }

    /** LoadOrStore(id, 1): `loaded` tells whether `id` was already present; either way
        it is present afterwards, and nothing else changes. */
    method LoadOrStore(id: string) returns (loaded: bool)
      modifies this
      ensures loaded <==> id in old(ids)
      ensures ids == old(ids) + {id}
    {
      loaded := id in ids;
      ids := ids + {id};
    }

    /** Delete(id). */
    method Delete(id: string)
      modifies this
      ensures ids == old(ids) - {id}
    {
      ids := ids - {id};
    }
  }

  /** Of two acquisitions of the same identifier the second is refused, and after the
      first holder deletes it, a third acquisition succeeds. Each result is the `loaded`
      flag of `LoadOrStore`: true means the identifier was already in flight. */
  method AcquireTwiceThenRelease(id: string)
    returns (firstLoaded: bool, secondLoaded: bool, thirdLoaded: bool)
    ensures !firstLoaded && secondLoaded && !thirdLoaded
  {
    var guard := new InFlight();
    firstLoaded := guard.LoadOrStore(id);
    secondLoaded := guard.LoadOrStore(id);
    guard.Delete(id);
    thirdLoaded := guard.LoadOrStore(id);
  }
}

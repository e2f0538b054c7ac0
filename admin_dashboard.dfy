/** The admin dashboard: a fixed movement list, searched by client or
    delivery person and filtered by status, with per-status statistics. */
module AdminDashboard {
  import opened JsText
  import opened JsArray
  import opened Domain

  /** A movement as the admin dashboard lists it. */
  datatype AdminMovement = AdminMovement(
    id: string,
    movementType: MovementType,
    client: string,
    description: string,
    quantity: string,
    status: Status,
    deliveryPerson: string,
    createdAt: string)

  /** The status filter's wildcard value. */
  const AllStatuses: string := "todos"

  /** The client or the delivery person contains the search term, ignoring
      case. The empty term matches every movement, and a term longer than both
      names matches none. */
  function MatchesSearch(m: AdminMovement, searchTerm: string): (matches: bool)
    ensures searchTerm == [] ==> matches
    ensures matches ==> |searchTerm| <= |m.client| || |searchTerm| <= |m.deliveryPerson|
  {
    IncludesEmpty(ToLower(m.client));
    || Includes(ToLower(m.client), ToLower(searchTerm))
    || Includes(ToLower(m.deliveryPerson), ToLower(searchTerm))
  }

  /** The filter is the wildcard or the movement's status name: the wildcard
      matches every movement, and a status's name matches exactly the
      movements with that status. */
  function MatchesStatus(m: AdminMovement, statusFilter: string): (matches: bool)
    ensures statusFilter == AllStatuses ==> matches
    ensures forall s :: StatusName(s) == statusFilter ==> (matches <==> m.status == s)
  {
    StatusNameInjective(m.status, m.status);
    forall s ensures StatusName(s) == statusFilter ==> (StatusName(m.status) == statusFilter <==> m.status == s) {
      StatusNameInjective(m.status, s);
    }
    statusFilter == AllStatuses || StatusName(m.status) == statusFilter
  }

  predicate IsShown(m: AdminMovement, searchTerm: string, statusFilter: string) {
    MatchesSearch(m, searchTerm) && MatchesStatus(m, statusFilter)
  }

  /** `filteredMovements`: the movements that match both the search and the
      status filter, in their original order. */
  function FilteredMovements(ms: seq<AdminMovement>, searchTerm: string, statusFilter: string): (r: seq<AdminMovement>)
    ensures IsSubsequence(r, ms)
    ensures forall m :: m in r <==> m in ms && MatchesSearch(m, searchTerm) && MatchesStatus(m, statusFilter)
    ensures forall m :: multiset(r)[m] == if IsShown(m, searchTerm, statusFilter) then multiset(ms)[m] else 0
  {
    var r := Filter(ms, m => IsShown(m, searchTerm, statusFilter));
    forall m ensures m in r <==> m in ms && IsShown(m, searchTerm, statusFilter) {
      FilterMembership(ms, m => IsShown(m, searchTerm, statusFilter), m);
    }
    r
  }

  /** With an empty search and the wildcard, every movement is shown. */
  lemma NoFilterShowsAll(ms: seq<AdminMovement>)
    ensures FilteredMovements(ms, "", AllStatuses) == ms
  {
    forall i | 0 <= i < |ms| ensures IsShown(ms[i], "", AllStatuses) {
      IncludesEmpty(ToLower(ms[i].client));
    }
    FilterKeepsAll(ms, m => IsShown(m, "", AllStatuses));
  }

  /** With a status filter other than the wildcard, every movement shown has
      that status; a value that names no status shows nothing. */
  lemma StatusFilterExact(ms: seq<AdminMovement>, searchTerm: string, statusFilter: string)
    requires statusFilter != AllStatuses
    ensures forall m :: m in FilteredMovements(ms, searchTerm, statusFilter) ==> StatusName(m.status) == statusFilter
    ensures (forall s :: StatusName(s) != statusFilter) ==> FilteredMovements(ms, searchTerm, statusFilter) == []
  {
  }

  /** The search ignores the case of the term: lower-casing it first shows
      the same movements. */
  lemma SearchIgnoresCase(ms: seq<AdminMovement>, searchTerm: string, statusFilter: string)
    ensures FilteredMovements(ms, ToLower(searchTerm), statusFilter) == FilteredMovements(ms, searchTerm, statusFilter)
  {
    ToLowerIdempotent(searchTerm);
    FilterCongruent(ms, m => IsShown(m, ToLower(searchTerm), statusFilter), m => IsShown(m, searchTerm, statusFilter));
  }

  /** The statistics cards. */
  datatype Stats = Stats(total: nat, pendente: nat, entregue: nat, avariado: nat, naoEntregue: nat)

  function StatusOf(m: AdminMovement): Status {
    m.status
  }

  /** The card for one status. */
  function StatFor(s: Stats, st: Status): nat {
    match st
    case Pendente => s.pendente
    case Entregue => s.entregue
    case Avariado => s.avariado
    case NaoEntregue => s.naoEntregue
  }

  /** `stats`: the total and one count per status. Every movement is counted
      in exactly one status card, so the four cards add up to the total. */
  function ComputeStats(ms: seq<AdminMovement>): (s: Stats)
    ensures s.total == |ms|
    ensures forall st :: StatFor(s, st) == CountBy(ms, StatusOf, st)
    ensures s.pendente + s.entregue + s.avariado + s.naoEntregue == s.total
  {
    StatusCountsPartition(ms, StatusOf);
    Stats(|ms|, CountBy(ms, StatusOf, Pendente), CountBy(ms, StatusOf, Entregue),
          CountBy(ms, StatusOf, Avariado), CountBy(ms, StatusOf, NaoEntregue))
  }

  /** With an empty search, the status filter keeps exactly the movements
      of that status. */
  lemma EmptySearchStatusCount(ms: seq<AdminMovement>, st: Status)
    ensures |Filter(ms, m => IsShown(m, "", StatusName(st)))| == CountBy(ms, StatusOf, st)
  {
    forall i | 0 <= i < |ms|
      ensures IsShown(ms[i], "", StatusName(st)) == (StatusOf(ms[i]) == st)
    {
      IncludesEmpty(ToLower(ms[i].client));
      StatusNameInjective(ms[i].status, st);
    }
    CountByIsFilterLength(ms, StatusOf, st, m => IsShown(m, "", StatusName(st)));
  }

  /** Choosing a status in the filter, with an empty search, lists as many
      movements as that status's card shows. */
  lemma StatusFilterMatchesStats(ms: seq<AdminMovement>, st: Status)
    ensures |FilteredMovements(ms, "", StatusName(st))| == StatFor(ComputeStats(ms), st)
  {
    EmptySearchStatusCount(ms, st);
  }

  /** The dashboard's state. The movement list is fixed; only the search
      term and the status filter change. */
  class Screen {
    const movements: seq<AdminMovement>
    var searchTerm: string
    var statusFilter: string

    constructor (initial: seq<AdminMovement>)
      ensures movements == initial && searchTerm == "" && statusFilter == AllStatuses
    {
      movements := initial;
      searchTerm := "";
      statusFilter := AllStatuses;
    }

    /** Typing in the search box. */
    method SetSearchTerm(term: string)
      modifies this
      ensures searchTerm == term && statusFilter == old(statusFilter)
    {
      searchTerm := term;
    }

    /** Choosing in the status select. */
    method SetStatusFilter(filter: string)
      modifies this
      ensures statusFilter == filter && searchTerm == old(searchTerm)
    {
      statusFilter := filter;
    }
  }
}

/**
 * The simulation store (`SimulationService`,
 * loan-simulator/app/services/simulation_service.py): validated save,
 * history newest first, lookup by id and deletion by id.
 *
 * The database is a `SimulationDatabase` object: the rows of
 * `loan_simulations` in insertion order, and the counter behind the
 * autoincrement primary key. One call is one atomic update (the session's
 * add, commit and refresh happen together). The clock is the `now`
 * argument of `Save`.
 */
module SimulationService {
  import opened Wrappers
  import opened Digits
  import opened Timestamps
  import opened SimulationRecords

  /** The `ValueError`s the service raises. */
  datatype StoreError = NamesRequired | CategoriesRequired | NotFound(id: int)

  const NamesRequiredMessage: string := "Le prénom et le nom sont obligatoires"
  const CategoriesRequiredMessage: string := "Les catégories d'âge " + "et professionnelle sont obligatoires"
  const NotFoundPrefix: string := "Aucune simulation trouvée avec l'ID "

  /**
   * The text of the `ValueError`: a fixed sentence for the two refused saves,
   * and for a missing id a sentence that ends with the id in decimal.
   */
  function ErrorMessage(e: StoreError): (message: string)
    ensures e.NotFound? ==>
      |message| > |NotFoundPrefix| && message[..|NotFoundPrefix|] == NotFoundPrefix
      && ReadInt(message[|NotFoundPrefix|..]) == e.id
    ensures !e.NotFound? ==> |message| > 2 && message[0] == 'L'
  {
    match e
    case NamesRequired => NamesRequiredMessage
    case CategoriesRequired => CategoriesRequiredMessage
    case NotFound(id) =>
      assert (NotFoundPrefix + IntString(id))[|NotFoundPrefix|..] == IntString(id);
      IntStringReadsBack(id);
      NotFoundPrefix + IntString(id)
  }

  /** Distinct errors carry distinct messages, so the message tells which error was raised. */
  lemma ErrorMessagesDistinct(e1: StoreError, e2: StoreError)
    ensures e1 != e2 ==> ErrorMessage(e1) != ErrorMessage(e2)
  {
    if e1 != e2 {
      if e1.NotFound? && e2.NotFound? {
        assert ReadInt(ErrorMessage(e1)[|NotFoundPrefix|..]) != ReadInt(ErrorMessage(e2)[|NotFoundPrefix|..]);
      } else if e1.NotFound? || e2.NotFound? {
        assert NotFoundPrefix[0] == 'A';
      } else {
        assert ErrorMessage(e1)[2] != ErrorMessage(e2)[2];
      }
    }
  }

  /** `get_simulation_history`'s default limit. */
  const DefaultHistoryLimit: int := 50

  /**
   * The checks `save_simulation` makes before storing anything: both names
   * first, then both categories.
   */
  function CheckSaveRequest(request: SimulationLoanRequest): (e: Option<StoreError>)
    ensures e == Some(NamesRequired) <==> !Given(request.firstName) || !Given(request.lastName)
    ensures e == Some(CategoriesRequired) <==>
      Given(request.firstName) && Given(request.lastName)
      && (!Given(request.ageCategory) || !Given(request.professionalCategory))
    ensures e == None <==>
      Given(request.firstName) && Given(request.lastName)
      && Given(request.ageCategory) && Given(request.professionalCategory)
  {
    if !Given(request.firstName) || !Given(request.lastName) then Some(NamesRequired)
    else if !Given(request.ageCategory) || !Given(request.professionalCategory) then Some(CategoriesRequired)
    else None
  }

  /** The row `save_simulation` builds from an accepted request. */
  function NewRecord(id: int, request: SaveSimulationRequest, now: DateTime): (r: LoanSimulation)
    requires CheckSaveRequest(request.loanRequest).None?
    ensures var q := request.loanRequest;
      && r.id == id && r.firstName == q.firstName.value && r.lastName == q.lastName.value
      && r.ageCategory == q.ageCategory.value && r.professionalCategory == q.professionalCategory.value
      && r.monthlyNetIncome == q.monthlyNetIncome && r.loanAmount == q.amount
      && r.durationYears == q.durationYears
    ensures var p := request.loanResponse;
      && r.annualInterestRate == p.annualInterestRate && r.totalInterest == p.totalInterest
      && r.totalCost == p.totalCost && r.monthlyPayment == p.monthlyPayment
    ensures r.createdAt == now
    ensures ValidDateTime(now) ==> Complete(r)
  {
    var q := request.loanRequest;
    var p := request.loanResponse;
    LoanSimulation(id, q.firstName.value, q.lastName.value, q.ageCategory.value,
                   q.professionalCategory.value, q.monthlyNetIncome, q.amount, q.durationYears,
                   p.annualInterestRate, p.totalInterest, p.totalCost, p.monthlyPayment, now)
  }

  /** Ids in storage order are strictly increasing, hence pairwise distinct. */
  ghost predicate IdsIncreasing(rs: seq<LoanSimulation>)
  {
    forall i, j :: 0 <= i < j < |rs| ==> rs[i].id < rs[j].id
  }

  /** `WHERE id = ...` with `scalar_one_or_none`: the record with that id, if any. */
  function FindById(rs: seq<LoanSimulation>, id: int): (r: Option<LoanSimulation>)
    ensures r.Some? ==> r.value in rs && r.value.id == id
  {
    if rs == [] then None
    else if rs[0].id == id then Some(rs[0])
    else FindById(rs[1..], id)
  }

  /** `FindById` finds the first record carrying the id, and fails exactly when none does. */
  lemma {:induction false} FindByIdFindsFirst(rs: seq<LoanSimulation>, id: int)
    ensures FindById(rs, id).None? <==> forall j :: 0 <= j < |rs| ==> rs[j].id != id
    ensures forall i :: (0 <= i < |rs| && rs[i].id == id && (forall j :: 0 <= j < i ==> rs[j].id != id)
      ==> FindById(rs, id) == Some(rs[i]))
  {
    if rs != [] {
      FindByIdFindsFirst(rs[1..], id);
      forall i | 0 <= i < |rs| && rs[i].id == id && (forall j :: 0 <= j < i ==> rs[j].id != id)
        ensures FindById(rs, id) == Some(rs[i])
      {
        if i > 0 {
          assert rs[1..][i - 1] == rs[i];
        }
      }
      if forall j :: 0 <= j < |rs[1..]| ==> rs[1..][j].id != id {
        assert forall j :: 1 <= j < |rs| ==> rs[j] == rs[1..][j - 1];
      }
    }
  }

  /** The records that remain once the one with `id` is deleted. */
  function RemoveId(rs: seq<LoanSimulation>, id: int): (kept: seq<LoanSimulation>)
  {
    if rs == [] then []
    else (if rs[0].id == id then [] else [rs[0]]) + RemoveId(rs[1..], id)
  }

  /** With distinct ids, removing the id of the record at `i` cuts out exactly that record. */
  lemma {:induction false} RemoveIdAt(rs: seq<LoanSimulation>, i: int)
    requires IdsIncreasing(rs) && 0 <= i < |rs|
    ensures RemoveId(rs, rs[i].id) == rs[..i] + rs[i + 1..]
  {
    var tail := rs[1..];
    TailIdsIncreasing(rs);
    if i == 0 {
      assert RemoveId(rs, rs[0].id) == RemoveId(tail, rs[0].id);
      RemoveAbsent(tail, rs[0].id);
      assert rs[..0] + rs[1..] == tail;
    } else {
      var id := rs[i].id;
      assert tail[i - 1] == rs[i];
      assert rs[0].id < id;
      assert RemoveId(rs, id) == [rs[0]] + RemoveId(tail, id);
      RemoveIdAt(tail, i - 1);
      assert rs[..i] == [rs[0]] + tail[..i - 1];
      assert rs[i + 1..] == tail[i..];
      assert rs[..i] + rs[i + 1..] == [rs[0]] + (tail[..i - 1] + tail[i..]);
    }
  }

  /** The records after the first keep increasing ids, all above the first one's. */
  lemma TailIdsIncreasing(rs: seq<LoanSimulation>)
    requires IdsIncreasing(rs) && rs != []
    ensures IdsIncreasing(rs[1..])
    ensures forall j :: 0 <= j < |rs[1..]| ==> rs[1..][j].id > rs[0].id
  {
    assert forall j :: 0 <= j < |rs[1..]| ==> rs[1..][j] == rs[j + 1];
  }

  /** Removing an id no record carries changes nothing. */
  lemma {:induction false} RemoveAbsent(rs: seq<LoanSimulation>, id: int)
    requires forall j :: 0 <= j < |rs| ==> rs[j].id > id
    ensures RemoveId(rs, id) == rs
  {
    if rs != [] {
      RemoveAbsent(rs[1..], id);
    }
  }

  /** After removal the id is gone, and every other id finds what it found before. */
  lemma {:induction false} RemoveIdFinds(rs: seq<LoanSimulation>, id: int, other: int)
    ensures FindById(RemoveId(rs, id), id) == None
    ensures other != id ==> FindById(RemoveId(rs, id), other) == FindById(rs, other)
  {
    if rs != [] {
      var tail := RemoveId(rs[1..], id);
      RemoveIdFinds(rs[1..], id, other);
      if rs[0].id != id {
        var kept := [rs[0]] + tail;
        assert RemoveId(rs, id) == kept;
        assert kept[0] == rs[0] && kept[1..] == tail;
      } else {
        assert RemoveId(rs, id) == tail;
      }
    }
  }

  /** A record appended with an id above all others is found by it, and other lookups are unchanged. */
  lemma {:induction false} FindAfterAppend(rs: seq<LoanSimulation>, r: LoanSimulation, other: int)
    requires forall j :: 0 <= j < |rs| ==> rs[j].id < r.id
    ensures FindById(rs + [r], r.id) == Some(r)
    ensures other != r.id ==> FindById(rs + [r], other) == FindById(rs, other)
  {
    if rs != [] {
      assert (rs + [r])[1..] == rs[1..] + [r];
      FindAfterAppend(rs[1..], r, other);
    }
  }

  /** `created_at` as the database orders it. */
  function CreatedTicks(r: LoanSimulation): (ticks: int)
  {
    Ticks(r.createdAt)
  }

  /** `ORDER BY created_at DESC`: no record is newer than one before it. */
  predicate NewestFirst(rs: seq<LoanSimulation>)
  {
    forall i, j :: 0 <= i < j < |rs| ==> CreatedTicks(rs[j]) <= CreatedTicks(rs[i])
  }

  /** In a newest-first list of real timestamps, no record was created before one that follows it. */
  lemma NewestFirstIsChronological(rs: seq<LoanSimulation>, i: int, j: int)
    requires NewestFirst(rs) && 0 <= i < j < |rs|
    requires ValidDateTime(rs[i].createdAt) && ValidDateTime(rs[j].createdAt)
    ensures !Earlier(rs[i].createdAt, rs[j].createdAt)
  {
    TicksFollowTime(rs[i].createdAt, rs[j].createdAt);
  }

  /**
   * `ORDER BY created_at DESC LIMIT count`: `count` of the records, each used
   * once, newest first, and none left out is newer than one taken. Records
   * with equal timestamps may come in any order.
   */
  ghost predicate NewestSelection(all: seq<LoanSimulation>, count: nat, sel: seq<LoanSimulation>)
  {
    |sel| == count && multiset(sel) <= multiset(all) && NewestFirst(sel)
    && forall r, s :: r in multiset(all) - multiset(sel) && s in sel ==> CreatedTicks(r) <= CreatedTicks(s)
  }

  /** How many rows `LIMIT limit` lets through; SQLite reads a negative limit as no limit. */
  function HistoryBound(limit: int, size: nat): (n: nat)
    ensures n <= size
    ensures limit >= 0 ==> n == if limit < size then limit else size
    ensures limit < 0 ==> n == size
  {
    if limit < 0 || limit > size then size else limit
  }

  /** The index of a record no other record is newer than. */
  method IndexOfNewest(rs: seq<LoanSimulation>) returns (k: int)
    requires |rs| > 0
    ensures 0 <= k < |rs|
    ensures forall j :: 0 <= j < |rs| ==> CreatedTicks(rs[j]) <= CreatedTicks(rs[k])
  {
    k := 0;
    var i := 1;
    while i < |rs|
      invariant 1 <= i <= |rs| && 0 <= k < i
      invariant forall j :: 0 <= j < i ==> CreatedTicks(rs[j]) <= CreatedTicks(rs[k])
    {
      if CreatedTicks(rs[i]) > CreatedTicks(rs[k]) {
        k := i;
      }
      i := i + 1;
    }
  }

  /** Picks the newest remaining record `count` times. */
  method SelectNewest(all: seq<LoanSimulation>, count: nat) returns (sel: seq<LoanSimulation>)
    requires count <= |all|
    ensures NewestSelection(all, count, sel)
  {
    sel := [];
    var rest := all;
    while |sel| < count
      invariant |sel| + |rest| == |all| && |sel| <= count
      invariant multiset(sel) + multiset(rest) == multiset(all)
      invariant NewestFirst(sel)
      invariant forall r, s :: r in rest && s in sel ==> CreatedTicks(r) <= CreatedTicks(s)
    {
      var k := IndexOfNewest(rest);
      var newest := rest[k];
      var others := rest[..k] + rest[k + 1..];
      TakeOut(rest, k);
      AppendNotNewer(sel, newest);
      sel := sel + [newest];
      rest := others;
    }
    assert multiset(all) - multiset(sel) == multiset(rest);
  }

  /** Taking the element at `k` out of `rest` takes one copy of it out of its multiset. */
  lemma TakeOut(rest: seq<LoanSimulation>, k: int)
    requires 0 <= k < |rest|
    ensures multiset(rest) == multiset(rest[..k] + rest[k + 1..]) + multiset{rest[k]}
    ensures forall r :: r in rest[..k] + rest[k + 1..] ==> r in rest
  {
    assert rest == rest[..k] + [rest[k]] + rest[k + 1..];
  }

  /** A record no newer than any of a newest-first list can go at its end. */
  lemma AppendNotNewer(sel: seq<LoanSimulation>, x: LoanSimulation)
    requires NewestFirst(sel)
    requires forall s :: s in sel ==> CreatedTicks(x) <= CreatedTicks(s)
    ensures NewestFirst(sel + [x])
  {
    var longer := sel + [x];
    forall i, j | 0 <= i < j < |longer|
      ensures CreatedTicks(longer[j]) <= CreatedTicks(longer[i])
    {
      assert longer[i] == sel[i];
      if j == |sel| {
        assert sel[i] in sel;
      } else {
        assert longer[j] == sel[j];
      }
    }
  }

  /** Every record carries a real timestamp. */
  predicate AllDated(rs: seq<LoanSimulation>)
  {
    forall i :: 0 <= i < |rs| ==> ValidDateTime(rs[i].createdAt)
  }

  /** Records drawn from dated records are dated. */
  lemma SelectionDated(all: seq<LoanSimulation>, sel: seq<LoanSimulation>)
    requires AllDated(all) && multiset(sel) <= multiset(all)
    ensures AllDated(sel)
  {
    forall i | 0 <= i < |sel| ensures ValidDateTime(sel[i].createdAt) {
      assert sel[i] in multiset(all);
    }
  }

  /** `history` lists the history entries of `sel`, in the same order. */
  predicate HistoryOf(history: seq<SimulationHistory>, sel: seq<LoanSimulation>)
    requires AllDated(sel)
  {
    |history| == |sel| && forall i :: 0 <= i < |sel| ==> history[i] == ToHistory(sel[i])
  }

  /** The loop of `get_simulation_history` that turns each selected row into a history entry. */
  method ToHistories(sel: seq<LoanSimulation>) returns (history: seq<SimulationHistory>)
    requires AllDated(sel)
    ensures HistoryOf(history, sel)
  {
    history := [];
    var i := 0;
    while i < |sel|
      invariant 0 <= i <= |sel| && |history| == i
      invariant forall j :: 0 <= j < i ==> history[j] == ToHistory(sel[j])
    {
      history := history + [ToHistory(sel[i])];
      i := i + 1;
    }
  }

  class SimulationDatabase {
    /** The rows of `loan_simulations`, oldest insertion first. */
    var records: seq<LoanSimulation>
    /** The id the next saved row receives. */
    var nextId: int

    /** Ids are positive, below the counter and increasing; every row is complete. */
    /** Cutting one record out of a valid table keeps ids increasing, below the counter, and records complete. */
    static lemma CutKeeps(rs: seq<LoanSimulation>, i: int, bound: int)
      requires IdsIncreasing(rs) && 0 <= i < |rs|
      requires forall k :: 0 <= k < |rs| ==> 1 <= rs[k].id < bound && Complete(rs[k])
      ensures var cut := rs[..i] + rs[i + 1..];
        IdsIncreasing(cut) && forall k :: 0 <= k < |cut| ==> 1 <= cut[k].id < bound && Complete(cut[k])
    {
      var cut := rs[..i] + rs[i + 1..];
      assert forall k :: 0 <= k < |cut| ==> cut[k] == (if k < i then rs[k] else rs[k + 1]);
    }

    ghost predicate Valid()
      reads this
    {
      nextId >= 1 && IdsIncreasing(records)
      && (forall i :: 0 <= i < |records| ==> 1 <= records[i].id < nextId)
      && (forall i :: 0 <= i < |records| ==> Complete(records[i]))
    }

    /** An empty table; the first id is 1. */
    constructor()
      ensures Valid() && records == [] && nextId == 1
    {
      records := [];
      nextId := 1;
    }

    /**
     * `save_simulation`: a request missing a name or a category is refused and
     * stores nothing; otherwise its fields and `now` are stored under a fresh
     * id, which is returned.
     */
    method Save(request: SaveSimulationRequest, now: DateTime) returns (r: Result<SaveSimulationResponse, StoreError>)
      requires Valid() && ValidDateTime(now)
      modifies this
      ensures Valid()
      ensures CheckSaveRequest(request.loanRequest).Some? ==>
        r == Failure(CheckSaveRequest(request.loanRequest).value)
        && records == old(records) && nextId == old(nextId)
      ensures CheckSaveRequest(request.loanRequest).None? ==>
        r == Success(SaveSimulationResponse(old(nextId), SavedMessage))
        && records == old(records) + [NewRecord(old(nextId), request, now)]
        && nextId == old(nextId) + 1
    {
      var failure := CheckSaveRequest(request.loanRequest);
      if failure.Some? {
        return Failure(failure.value);
      }
      var id := nextId;
      records := records + [NewRecord(id, request, now)];
      nextId := nextId + 1;
      r := Success(SaveSimulationResponse(id, SavedMessage));
    }

    /**
     * `get_simulation_history`: the `limit` newest records (all of them for a
     * negative limit), newest first, as history entries.
     */
    method History(limit: int) returns (history: seq<SimulationHistory>)
      requires Valid()
      ensures exists sel: seq<LoanSimulation> ::
        NewestSelection(records, HistoryBound(limit, |records|), sel) && AllDated(sel) && HistoryOf(history, sel)
    {
      var sel := SelectNewest(records, HistoryBound(limit, |records|));
      assert AllDated(records);
      SelectionDated(records, sel);
      history := ToHistories(sel);
    }

    /**
     * `get_simulation_history` called without a limit: the 50 newest records,
     * or every record when fewer are stored.
     */
    method DefaultHistory() returns (history: seq<SimulationHistory>)
      requires Valid()
      ensures |history| == if |records| < DefaultHistoryLimit then |records| else DefaultHistoryLimit
      ensures exists sel: seq<LoanSimulation> ::
        NewestSelection(records, HistoryBound(DefaultHistoryLimit, |records|), sel) && AllDated(sel) && HistoryOf(history, sel)
    {
      history := History(DefaultHistoryLimit);
    }

    /** `get_simulation_by_id`: the record with that id, or `NotFound` when there is none. */
    method GetById(id: int) returns (r: Result<SimulationHistory, StoreError>)
      requires Valid()
      ensures FindById(records, id).None? ==> r == Failure(NotFound(id))
      ensures FindById(records, id).Some? ==> r == Success(ToHistory(FindById(records, id).value))
    {
      FindByIdFindsFirst(records, id);
      var i := 0;
      while i < |records|
        invariant 0 <= i <= |records|
        invariant forall j :: 0 <= j < i ==> records[j].id != id
      {
        if records[i].id == id {
          return Success(ToHistory(records[i]));
        }
        i := i + 1;
      }
      r := Failure(NotFound(id));
    }

    /** `delete_simulation`: removes the record with that id, or fails with `NotFound` and changes nothing. */
    method Delete(id: int) returns (r: Result<(), StoreError>)
      requires Valid()
      modifies this
      ensures Valid() && nextId == old(nextId)
      ensures FindById(old(records), id).None? ==> r == Failure(NotFound(id)) && records == old(records)
      ensures FindById(old(records), id).Some? ==> r == Success(()) && records == RemoveId(old(records), id)
    {
      FindByIdFindsFirst(records, id);
      var i := 0;
      while i < |records|
        invariant 0 <= i <= |records|
        invariant forall j :: 0 <= j < i ==> records[j].id != id
      {
        if records[i].id == id {
          RemoveIdAt(records, i);
          CutKeeps(records, i, nextId);
          records := records[..i] + records[i + 1..];
          return Success(());
        }
        i := i + 1;
      }
      r := Failure(NotFound(id));
    }
  }
}

/** Resource accounting: live reservations, what they add up to, and when a request fits beside them. */
module Ledgers {
  import opened TaskStates

  datatype Gpu = Gpu(id: string, labels: seq<string>)

  /** GPUs are listed in the order in which the engine considers them. */
  datatype Capacity = Capacity(
    cpuSlots: nat,
    memoryBytes: Option<nat>,
    diskBytes: Option<nat>,
    gpus: seq<Gpu>,
    custom: map<string, nat>)
  {
    /** Values fit their machine types and GPU ids are distinct, as map keys are. */
    ghost predicate Valid() {
      && cpuSlots <= U32_MAX
      && OrZero(memoryBytes) <= U64_MAX
      && OrZero(diskBytes) <= U64_MAX
      && (forall name :: name in custom ==> custom[name] <= U64_MAX)
      && DistinctIds(gpus)
    }
  }

  datatype Request = Request(
    cpuSlots: nat,
    gpuCount: nat,
    memoryBytes: Option<nat>,
    diskBytes: Option<nat>,
    gpuLabels: seq<string>,
    custom: map<string, nat>)

  datatype Allocation = Allocation(cpu: nat, memory: nat, disk: nat, gpus: seq<string>, custom: map<string, nat>)

  type Live = map<nat, Allocation>

  datatype Dimension = Cpu | Memory | Disk | Custom(name: string)

  function OrZero(value: Option<nat>): nat {
    if value.Some? then value.value else 0
  }

  function Get(amounts: map<string, nat>, name: string): nat {
    if name in amounts then amounts[name] else 0
  }

  function Amount(a: Allocation, dim: Dimension): nat {
    match dim
    case Cpu => a.cpu
    case Memory => a.memory
    case Disk => a.disk
    case Custom(name) => Get(a.custom, name)
  }

  function Need(req: Request, dim: Dimension): nat {
    match dim
    case Cpu => req.cpuSlots
    case Memory => OrZero(req.memoryBytes)
    case Disk => OrZero(req.diskBytes)
    case Custom(name) => Get(req.custom, name)
  }

  function Limit(cap: Capacity, dim: Dimension): nat {
    match dim
    case Cpu => cap.cpuSlots
    case Memory => OrZero(cap.memoryBytes)
    case Disk => OrZero(cap.diskBytes)
    case Custom(name) => Get(cap.custom, name)
  }

  /** What the live reservations hold in one dimension. */
  ghost function Total(live: Live, dim: Dimension): nat
    decreases |live|
  {
    if live == map[] then 0
    else
      var t :| t in live;
      Amount(live[t], dim) + Total(live - {t}, dim)
  }

  ghost function Busy(live: Live): set<string> {
    set t, g | t in live && g in live[t].gpus :: g
  }

  // ---- GPUs ----

  predicate HasLabels(gpu: Gpu, labels: seq<string>) {
    forall l :: l in labels ==> l in gpu.labels
  }

  /** Ids of the free GPUs carrying all labels, in capacity order. */
  function FreeGpus(gpus: seq<Gpu>, busy: set<string>, labels: seq<string>): seq<string> {
    if gpus == [] then []
    else if gpus[0].id !in busy && HasLabels(gpus[0], labels)
    then [gpus[0].id] + FreeGpus(gpus[1..], busy, labels)
    else FreeGpus(gpus[1..], busy, labels)
  }

  function Take(ids: seq<string>, count: nat): seq<string> {
    if |ids| <= count then ids else ids[..count]
  }

  function Ids(ids: seq<string>): set<string> {
    set id | id in ids
  }

  predicate DistinctIds(gpus: seq<Gpu>) {
    forall i, j :: 0 <= i < j < |gpus| ==> gpus[i].id != gpus[j].id
  }

  /** Device `g` exists and carries the labels. */
  ghost predicate Carried(gpus: seq<Gpu>, g: string, labels: seq<string>) {
    exists i :: 0 <= i < |gpus| && gpus[i].id == g && HasLabels(gpus[i], labels)
  }

  /** The free devices are exactly the ones that are not busy and carry the labels, each listed once. */
  lemma {:induction false} FreeGpusExact(gpus: seq<Gpu>, busy: set<string>, labels: seq<string>)
    ensures forall g :: g in FreeGpus(gpus, busy, labels) <==> g !in busy && Carried(gpus, g, labels)
    ensures DistinctIds(gpus) ==> NoDuplicates(FreeGpus(gpus, busy, labels))
  {
    if gpus != [] {
      var rest := gpus[1..];
      FreeGpusExact(rest, busy, labels);
      forall g ensures Carried(gpus, g, labels) <==> (gpus[0].id == g && HasLabels(gpus[0], labels)) || Carried(rest, g, labels) {
        CarriedStep(gpus, g, labels);
      }
    }
  }

  lemma CarriedStep(gpus: seq<Gpu>, g: string, labels: seq<string>)
    requires gpus != []
    ensures Carried(gpus, g, labels) <==> (gpus[0].id == g && HasLabels(gpus[0], labels)) || Carried(gpus[1..], g, labels)
  {
    if Carried(gpus[1..], g, labels) {
      var i :| 0 <= i < |gpus[1..]| && gpus[1..][i].id == g && HasLabels(gpus[1..][i], labels);
      assert gpus[i + 1].id == g;
    }
    if Carried(gpus, g, labels) {
      var i :| 0 <= i < |gpus| && gpus[i].id == g && HasLabels(gpus[i], labels);
      assert i > 0 ==> gpus[1..][i - 1].id == g;
    }
  }

  /** Device `x` comes before device `y`. */
  ghost predicate Before(gpus: seq<Gpu>, x: string, y: string) {
    exists i, j :: 0 <= i < j < |gpus| && gpus[i].id == x && gpus[j].id == y
  }

  lemma BeforeStep(gpus: seq<Gpu>, x: string, y: string)
    requires gpus != []
    ensures Before(gpus[1..], x, y) ==> Before(gpus, x, y)
    ensures gpus[0].id == x && (exists j :: 0 <= j < |gpus[1..]| && gpus[1..][j].id == y) ==> Before(gpus, x, y)
  {
    if Before(gpus[1..], x, y) {
      var i, j :| 0 <= i < j < |gpus[1..]| && gpus[1..][i].id == x && gpus[1..][j].id == y;
      assert gpus[i + 1].id == x && gpus[j + 1].id == y;
    }
    if gpus[0].id == x && exists j :: 0 <= j < |gpus[1..]| && gpus[1..][j].id == y {
      var j :| 0 <= j < |gpus[1..]| && gpus[1..][j].id == y;
      assert gpus[j + 1].id == y;
    }
  }

  /** They are listed in the order of the capacity. */
  lemma {:induction false} FreeGpusInOrder(gpus: seq<Gpu>, busy: set<string>, labels: seq<string>, a: nat, b: nat)
    requires a < b < |FreeGpus(gpus, busy, labels)|
    ensures Before(gpus, FreeGpus(gpus, busy, labels)[a], FreeGpus(gpus, busy, labels)[b])
  {
    var rest, free := gpus[1..], FreeGpus(gpus, busy, labels);
    BeforeStep(gpus, free[a], free[b]);
    if gpus[0].id !in busy && HasLabels(gpus[0], labels) {
      assert free[b] == FreeGpus(rest, busy, labels)[b - 1];
      if a == 0 {
        FreeGpusExact(rest, busy, labels);
        assert free[b] in FreeGpus(rest, busy, labels) && Carried(rest, free[b], labels);
      } else {
        FreeGpusInOrder(rest, busy, labels, a - 1, b - 1);
      }
    } else {
      FreeGpusInOrder(rest, busy, labels, a, b);
    }
  }

  /** `chosen` are as many distinct devices as asked for, free and with the labels. */
  ghost predicate Serviceable(gpus: seq<Gpu>, busy: set<string>, req: Request, chosen: set<string>) {
    |chosen| == req.gpuCount && forall g :: g in chosen ==> g !in busy && Carried(gpus, g, req.gpuLabels)
  }

  ghost predicate GpusSuffice(gpus: seq<Gpu>, busy: set<string>, req: Request) {
    exists chosen :: Serviceable(gpus, busy, req, chosen)
  }

  lemma {:induction false} DistinctCount(ids: seq<string>)
    requires NoDuplicates(ids)
    ensures |Ids(ids)| == |ids|
  {
    if ids != [] {
      DistinctCount(ids[1..]);
      assert ids[0] !in ids[1..];
      assert Ids(ids) == {ids[0]} + Ids(ids[1..]);
    }
  }

  lemma SubsetCount(a: set<string>, b: set<string>)
    requires a <= b
    ensures |a| <= |b|
  {
    assert b == a + (b - a);
  }

  /** Enough devices exist exactly if enough free ones are listed. */
  lemma GpusSufficeIff(gpus: seq<Gpu>, busy: set<string>, req: Request)
    requires DistinctIds(gpus)
    ensures GpusSuffice(gpus, busy, req) <==> |FreeGpus(gpus, busy, req.gpuLabels)| >= req.gpuCount
  {
    var free := FreeGpus(gpus, busy, req.gpuLabels);
    FreeGpusExact(gpus, busy, req.gpuLabels);
    DistinctCount(free);
    if |free| >= req.gpuCount {
      var chosen := free[..req.gpuCount];
      DistinctCount(chosen);
      assert Serviceable(gpus, busy, req, Ids(chosen));
    }
    if chosen :| Serviceable(gpus, busy, req, chosen) {
      SubsetCount(chosen, Ids(free));
    }
  }

  // ---- sums ----

  lemma {:induction false} TotalRemove(live: Live, token: nat, dim: Dimension)
    requires token in live
    ensures Total(live, dim) == Amount(live[token], dim) + Total(live - {token}, dim)
    decreases |live|
  {
    var pick :| pick in live && Total(live, dim) == Amount(live[pick], dim) + Total(live - {pick}, dim);
    if pick != token {
      TotalRemove(live - {pick}, token, dim);
      TotalRemove(live - {token}, pick, dim);
      assert live - {pick} - {token} == live - {token} - {pick};
    }
  }

  lemma TotalInsert(live: Live, token: nat, a: Allocation, dim: Dimension)
    requires token !in live
    ensures Total(live[token := a], dim) == Total(live, dim) + Amount(a, dim)
  {
    TotalRemove(live[token := a], token, dim);
    assert live[token := a] - {token} == live;
  }

  lemma {:induction false} TotalMonotone(live: Live, gone: set<nat>, dim: Dimension)
    ensures Total(live - gone, dim) <= Total(live, dim)
    decreases |live|
  {
    if token :| token in live && token in gone {
      TotalRemove(live, token, dim);
      TotalMonotone(live - {token}, gone, dim);
      assert live - {token} - gone == live - gone;
    } else {
      assert live - gone == live;
    }
  }

  /** What the named requests ask for, added up. */
  function SumOf(requests: map<nat, Request>, tokens: seq<nat>, amount: Request -> nat): nat
    requires forall t :: t in tokens ==> t in requests
  {
    if tokens == [] then 0 else amount(requests[tokens[0]]) + SumOf(requests, tokens[1..], amount)
  }

  lemma {:induction false} SumBelowTotal(
    live: Live, requests: map<nat, Request>, tokens: seq<nat>, dim: Dimension, amount: Request -> nat)
    requires NoDuplicates(tokens)
    requires forall t :: t in tokens ==> t in live && t in requests && amount(requests[t]) == Amount(live[t], dim)
    ensures SumOf(requests, tokens, amount) <= Total(live, dim)
    decreases |tokens|
  {
    if tokens != [] {
      var first, rest := tokens[0], tokens[1..];
      assert first in tokens && first !in rest && forall t :: t in rest ==> t in tokens;
      TotalRemove(live, first, dim);
      SumBelowTotal(live - {first}, requests, rest, dim, amount);
    }
  }

  // ---- admission, as a function of the live reservations alone ----

  predicate Asked(req: Request, dim: Dimension) {
    dim.Custom? ==> dim.name in req.custom
  }

  /** The request fits beside the live reservations, in every dimension it asks for. */
  ghost predicate Fits(cap: Capacity, live: Live, req: Request) {
    && (forall dim: Dimension :: Asked(req, dim) ==> Total(live, dim) + Need(req, dim) <= Limit(cap, dim))
    && GpusSuffice(cap.gpus, Busy(live), req)
  }

  /** Every custom resource asked for is configured. */
  predicate NamesKnown(cap: Capacity, req: Request) {
    forall name :: name in req.custom ==> name in cap.custom
  }

  /** An idle engine that would hold a request naming an unknown resource was asked for none of it. */
  lemma UnknownButFitting(cap: Capacity, req: Request)
    requires Fits(cap, map[], req) && !NamesKnown(cap, req)
    ensures exists name :: name in req.custom && name !in cap.custom && req.custom[name] == 0
  {
    var name :| name in req.custom && name !in cap.custom;
    assert Total(map[], Custom(name)) + Need(req, Custom(name)) <= Limit(cap, Custom(name));
  }

  /** A request for zero units of one resource and nothing else. */
  function NothingOf(name: string): Request {
    Request(0, 0, None, None, [], map[name := 0])
  }

  /** For every unconfigured name there is a request that an idle engine could hold and that names an unknown resource. */
  lemma FittingButUnknown(cap: Capacity, name: string)
    requires name !in cap.custom
    ensures Fits(cap, map[], NothingOf(name)) && !NamesKnown(cap, NothingOf(name))
  {
    assert name in NothingOf(name).custom;
    assert Serviceable(cap.gpus, Busy(map[]), NothingOf(name), {});
  }

  /** An idle engine could hold the request, yet it is rejected for good. */
  ghost predicate WronglyRejected(cap: Capacity, req: Request) {
    Fits(cap, map[], req) && !NamesKnown(cap, req)
  }

  /** No request over `names` is wrongly rejected exactly if every one of these names is configured. */
  lemma RejectionIsRightIff(cap: Capacity, names: set<string>)
    ensures (forall req: Request :: req.custom.Keys <= names ==> !WronglyRejected(cap, req)) <==> names <= cap.custom.Keys
  {
    if name :| name in names && name !in cap.custom {
      FittingButUnknown(cap, name);
      assert NothingOf(name).custom.Keys <= names && WronglyRejected(cap, NothingOf(name));
    }
  }

  /** The reservation a request gets. */
  ghost function Granted(cap: Capacity, live: Live, req: Request): Allocation {
    Allocation(req.cpuSlots, OrZero(req.memoryBytes), OrZero(req.diskBytes),
               Take(FreeGpus(cap.gpus, Busy(live), req.gpuLabels), req.gpuCount), req.custom)
  }

  /** Releasing reservations never makes a fitting request unfit. */
  lemma FitsMonotone(cap: Capacity, live: Live, gone: set<nat>, req: Request)
    requires Fits(cap, live, req)
    ensures Fits(cap, live - gone, req)
  {
    forall dim: Dimension ensures Total(live - gone, dim) <= Total(live, dim) {
      TotalMonotone(live, gone, dim);
    }
    var chosen :| Serviceable(cap.gpus, Busy(live), req, chosen);
    assert Serviceable(cap.gpus, Busy(live - gone), req, chosen);
  }

  /** What does not fit into an idle engine fits into no engine state. */
  lemma UnfitWhenIdle(cap: Capacity, live: Live, req: Request)
    requires !Fits(cap, map[], req)
    ensures !Fits(cap, live, req)
  {
    assert live - live.Keys == map[];
    if Fits(cap, live, req) {
      FitsMonotone(cap, live, live.Keys, req);
    }
  }

  // ---- the ledger invariant ----

  /** A reservation serves its request: the amounts asked for, and that many GPUs with the labels asked for. */
  ghost predicate Serves(cap: Capacity, req: Request, a: Allocation) {
    && (forall dim: Dimension :: Amount(a, dim) == Need(req, dim))
    && |a.gpus| == req.gpuCount
    && NoDuplicates(a.gpus)
    && forall g :: g in a.gpus ==> Carried(cap.gpus, g, req.gpuLabels)
  }

  ghost predicate DisjointGpus(live: Live) {
    forall s, t, g :: s in live && t in live && g in live[s].gpus && g in live[t].gpus ==> s == t
  }

  lemma GrantedServes(cap: Capacity, live: Live, req: Request)
    requires cap.Valid() && Fits(cap, live, req)
    ensures Serves(cap, req, Granted(cap, live, req))
    ensures forall g :: g in Granted(cap, live, req).gpus ==> g !in Busy(live)
  {
    var free := FreeGpus(cap.gpus, Busy(live), req.gpuLabels);
    FreeGpusExact(cap.gpus, Busy(live), req.gpuLabels);
    GpusSufficeIff(cap.gpus, Busy(live), req);
    forall g | g in Granted(cap, live, req).gpus ensures g !in Busy(live) && Carried(cap.gpus, g, req.gpuLabels) {
      assert g in free;
    }
  }

  /** Of the free devices carrying the labels, a reservation gets the ones configured first. */
  lemma GrantedAreFirst(cap: Capacity, live: Live, req: Request, g: string, h: string)
    requires cap.Valid() && g in Granted(cap, live, req).gpus && h !in Granted(cap, live, req).gpus
    requires h !in Busy(live) && Carried(cap.gpus, h, req.gpuLabels)
    ensures Before(cap.gpus, g, h)
  {
    var free, taken := FreeGpus(cap.gpus, Busy(live), req.gpuLabels), Granted(cap, live, req).gpus;
    FreeGpusExact(cap.gpus, Busy(live), req.gpuLabels);
    var a: nat :| a < |taken| && taken[a] == g;
    var b: nat :| b < |free| && free[b] == h;
    assert taken[a] == free[a];
    FreeGpusInOrder(cap.gpus, Busy(live), req.gpuLabels, a, b);
  }

  /** Aggregate of what is reserved. */
  datatype Usage = Usage(cpu: nat, memory: nat, disk: nat, gpus: seq<string>, custom: map<string, nat>)
  {
    function At(dim: Dimension): nat {
      match dim
      case Cpu => cpu
      case Memory => memory
      case Disk => disk
      case Custom(name) => Get(custom, name)
    }
  }

  /** Usage in every dimension is the sum of the live reservations and within capacity. */
  ghost predicate Sums(cap: Capacity, usage: Usage, live: Live) {
    forall dim: Dimension :: usage.At(dim) == Total(live, dim) && usage.At(dim) <= Limit(cap, dim)
  }

  /** Reserved GPUs are exactly those of the live reservations, which are disjoint and serve their requests. */
  ghost predicate Holds(cap: Capacity, usage: Usage, live: Live, requests: map<nat, Request>) {
    && NoDuplicates(usage.gpus)
    && Ids(usage.gpus) == Busy(live)
    && DisjointGpus(live)
    && requests.Keys == live.Keys
    && forall t :: t in live ==> Serves(cap, requests[t], live[t])
  }

  lemma ReserveSums(cap: Capacity, usage: Usage, live: Live, token: nat, req: Request, a: Allocation, usage': Usage)
    requires Sums(cap, usage, live) && token !in live && Fits(cap, live, req) && Serves(cap, req, a)
    requires forall dim: Dimension :: usage'.At(dim) == usage.At(dim) + Need(req, dim)
    ensures Sums(cap, usage', live[token := a])
  {
    forall dim: Dimension
      ensures usage'.At(dim) == Total(live[token := a], dim) && usage'.At(dim) <= Limit(cap, dim)
    {
      TotalInsert(live, token, a, dim);
      assert usage.At(dim) == Total(live, dim) && usage.At(dim) <= Limit(cap, dim);
      assert Amount(a, dim) == Need(req, dim);
    }
  }

  lemma ReserveHolds(cap: Capacity, usage: Usage, live: Live, requests: map<nat, Request>, token: nat, req: Request, a: Allocation, usage': Usage)
    requires Holds(cap, usage, live, requests) && token !in live && Serves(cap, req, a)
    requires forall g :: g in a.gpus ==> g !in Busy(live)
    requires usage'.gpus == usage.gpus + a.gpus
    ensures Holds(cap, usage', live[token := a], requests[token := req])
  {
    var live' := live[token := a];
    forall g ensures g in Busy(live') <==> g in Busy(live) || g in a.gpus {
      if g in a.gpus {
        assert token in live' && g in live'[token].gpus;
      }
      if g in Busy(live) {
        var t :| t in live && g in live[t].gpus;
        assert t in live' && g in live'[t].gpus;
      }
    }
    assert Ids(usage'.gpus) == Ids(usage.gpus) + Ids(a.gpus);
    forall i, j | 0 <= i < j < |usage'.gpus| ensures usage'.gpus[i] != usage'.gpus[j] {
      if i < |usage.gpus| <= j {
        assert usage.gpus[i] in Ids(usage.gpus) && a.gpus[j - |usage.gpus|] in a.gpus;
      }
    }
    forall s, t, g | s in live' && t in live' && g in live'[s].gpus && g in live'[t].gpus ensures s == t {
      assert s != token ==> g in Busy(live);
      assert t != token ==> g in Busy(live);
    }
  }

  lemma ReleaseSums(cap: Capacity, usage: Usage, live: Live, token: nat, usage': Usage)
    requires Sums(cap, usage, live) && token in live
    requires forall dim: Dimension :: usage'.At(dim) == SaturatingSub(usage.At(dim), Amount(live[token], dim))
    ensures Sums(cap, usage', live - {token})
    ensures forall dim: Dimension :: usage'.At(dim) + Amount(live[token], dim) == usage.At(dim)
  {
    forall dim: Dimension
      ensures usage'.At(dim) + Amount(live[token], dim) == usage.At(dim)
      ensures usage'.At(dim) == Total(live - {token}, dim) && usage'.At(dim) <= Limit(cap, dim)
    {
      TotalRemove(live, token, dim);
      assert usage.At(dim) == Total(live, dim) && usage.At(dim) <= Limit(cap, dim);
    }
  }

  lemma ReleaseHolds(cap: Capacity, usage: Usage, live: Live, requests: map<nat, Request>, token: nat, usage': Usage)
    requires Holds(cap, usage, live, requests) && token in live
    requires NoDuplicates(usage'.gpus) && Ids(usage'.gpus) == Ids(usage.gpus) - Ids(live[token].gpus)
    ensures Holds(cap, usage', live - {token}, requests - {token})
  {
    var live' := live - {token};
    forall g ensures g in Busy(live') <==> g in Busy(live) && g !in live[token].gpus {
      if g in Busy(live) && g !in live[token].gpus {
        var t :| t in live && g in live[t].gpus;
        assert t in live' && g in live'[t].gpus;
      }
    }
  }
}

/** The local engine: aggregate usage kept in step with the live reservations. */
module Engines {
  import opened TaskStates
  import opened Ledgers

  datatype EngineResult = Reserved(token: nat) | Unsatisfiable | TemporarilyUnavailable | TokenExhausted

  /** `used + need` is representable and within `limit`. */
  predicate Within(used: nat, need: nat, max: nat, limit: nat) {
    used + need <= max && used + need <= limit
  }

  function Filter(ids: seq<string>, drop: set<string>): (r: seq<string>)
    ensures Ids(r) == Ids(ids) - drop
    ensures NoDuplicates(ids) ==> NoDuplicates(r)
  {
    if ids == [] then []
    else
      var rest := Filter(ids[1..], drop);
      assert Ids(ids) == {ids[0]} + Ids(ids[1..]);
      assert NoDuplicates(ids) ==> NoDuplicates(ids[1..]) && ids[0] !in Ids(ids[1..]);
      assert ids[0] !in Ids(rest) ==> ids[0] !in rest;
      assert Ids([ids[0]] + rest) == {ids[0]} + Ids(rest);
      if ids[0] in drop then rest else [ids[0]] + rest
  }

  class LocalEngine {
    const capacity: Capacity
    var usage: Usage
    var live: Live
    var nextToken: Option<nat>
    ghost var requests: map<nat, Request>

    ghost predicate Valid()
      reads this
    {
      && capacity.Valid()
      && Sums(capacity, usage, live)
      && Holds(capacity, usage, live, requests)
      && (nextToken.Some? ==> forall t :: t in live ==> t < nextToken.value)
    }

    constructor (capacity: Capacity)
      requires capacity.Valid()
      ensures Valid() && live == map[] && this.capacity == capacity && nextToken == Some(1)
    {
      this.capacity := capacity;
      usage := Usage(0, 0, 0, [], map[]);
      live, requests, nextToken := map[], map[], Some(1);
      new;
      assert Busy(live) == {} && Ids(usage.gpus) == {};
    }

    /** In every reachable state any live requests fit the capacity together, in every dimension. */
    lemma LiveRequestsFit(tokens: seq<nat>, name: string)
      requires Valid() && NoDuplicates(tokens) && forall t :: t in tokens ==> t in live
      ensures forall t :: t in tokens ==> t in requests
      ensures SumOf(requests, tokens, (r: Request) => r.cpuSlots) <= capacity.cpuSlots
      ensures SumOf(requests, tokens, (r: Request) => OrZero(r.memoryBytes)) <= OrZero(capacity.memoryBytes)
      ensures SumOf(requests, tokens, (r: Request) => OrZero(r.diskBytes)) <= OrZero(capacity.diskBytes)
      ensures SumOf(requests, tokens, (r: Request) => Get(r.custom, name)) <= Get(capacity.custom, name)
    {
      forall t, dim: Dimension | t in tokens ensures t in requests && Amount(live[t], dim) == Need(requests[t], dim) {
        assert Serves(capacity, requests[t], live[t]);
      }
      assert forall dim: Dimension :: usage.At(dim) == Total(live, dim) && usage.At(dim) <= Limit(capacity, dim);
      forall t | t in tokens
        ensures && requests[t].cpuSlots == Amount(live[t], Cpu)
                && OrZero(requests[t].memoryBytes) == Amount(live[t], Memory)
                && OrZero(requests[t].diskBytes) == Amount(live[t], Disk)
                && Get(requests[t].custom, name) == Amount(live[t], Custom(name))
      {
        assert Amount(live[t], Cpu) == Need(requests[t], Cpu) && Amount(live[t], Memory) == Need(requests[t], Memory);
        assert Amount(live[t], Disk) == Need(requests[t], Disk);
        assert Amount(live[t], Custom(name)) == Need(requests[t], Custom(name));
      }
      SumBelowTotal(live, requests, tokens, Cpu, (r: Request) => r.cpuSlots);
      SumBelowTotal(live, requests, tokens, Memory, (r: Request) => OrZero(r.memoryBytes));
      SumBelowTotal(live, requests, tokens, Disk, (r: Request) => OrZero(r.diskBytes));
      SumBelowTotal(live, requests, tokens, Custom(name), (r: Request) => Get(r.custom, name));
      assert Total(live, Cpu) <= Limit(capacity, Cpu) && Total(live, Memory) <= Limit(capacity, Memory);
      assert Total(live, Disk) <= Limit(capacity, Disk) && Total(live, Custom(name)) <= Limit(capacity, Custom(name));
    }

    /** Capacity that could never satisfy the request, even with nothing reserved. */
    predicate ExceedsCapacity(req: Request) {
      || req.cpuSlots > capacity.cpuSlots
      || req.gpuCount > |FreeGpus(capacity.gpus, {}, req.gpuLabels)|
      || (req.memoryBytes.Some? && req.memoryBytes.value > OrZero(capacity.memoryBytes))
      || (req.diskBytes.Some? && req.diskBytes.value > OrZero(capacity.diskBytes))
      || exists name :: name in req.custom && (name !in capacity.custom || req.custom[name] > capacity.custom[name])
    }

    /** A request is rejected for good exactly when an idle engine could not hold it or it names an unknown resource. */
    lemma ExceedsCapacityIff(req: Request)
      requires capacity.Valid()
      ensures ExceedsCapacity(req) <==> !Fits(capacity, map[], req) || !NamesKnown(capacity, req)
    {
      var idle: Live := map[];
      assert forall dim: Dimension :: Total(idle, dim) == 0;
      assert Busy(idle) == {};
      GpusSufficeIff(capacity.gpus, {}, req);
      if Fits(capacity, idle, req) {
        assert Total(idle, Cpu) + Need(req, Cpu) <= Limit(capacity, Cpu);
        assert Total(idle, Memory) + Need(req, Memory) <= Limit(capacity, Memory);
        assert Total(idle, Disk) + Need(req, Disk) <= Limit(capacity, Disk);
        forall name | name in req.custom ensures req.custom[name] <= Get(capacity.custom, name) {
          assert Total(idle, Custom(name)) + Need(req, Custom(name)) <= Limit(capacity, Custom(name));
        }
      }
    }

    /** The additions the engine checks before reserving; none may leave its machine type. */
    predicate Available(req: Request)
      reads this
    {
      && Within(usage.cpu, req.cpuSlots, U32_MAX, capacity.cpuSlots)
      && Within(usage.memory, OrZero(req.memoryBytes), U64_MAX, OrZero(capacity.memoryBytes))
      && Within(usage.disk, OrZero(req.diskBytes), U64_MAX, OrZero(capacity.diskBytes))
      && |Take(FreeGpus(capacity.gpus, Ids(usage.gpus), req.gpuLabels), req.gpuCount)| == req.gpuCount
      && forall name :: name in req.custom ==>
           Within(Get(usage.custom, name), req.custom[name], U64_MAX, Get(capacity.custom, name))
    }

    lemma AvailableIffFits(req: Request)
      requires Valid()
      ensures Available(req) <==> Fits(capacity, live, req)
    {
      assert forall dim: Dimension :: usage.At(dim) == Total(live, dim);
      forall name ensures Get(usage.custom, name) == Total(live, Custom(name)) {
        assert usage.At(Custom(name)) == Total(live, Custom(name));
      }
      assert usage.cpu == usage.At(Cpu) && usage.memory == usage.At(Memory) && usage.disk == usage.At(Disk);
      GpusSufficeIff(capacity.gpus, Busy(live), req);
      if Fits(capacity, live, req) {
        assert Total(live, Cpu) + Need(req, Cpu) <= Limit(capacity, Cpu);
        assert Total(live, Memory) + Need(req, Memory) <= Limit(capacity, Memory);
        assert Total(live, Disk) + Need(req, Disk) <= Limit(capacity, Disk);
        forall name | name in req.custom
          ensures Within(Get(usage.custom, name), req.custom[name], U64_MAX, Get(capacity.custom, name))
        {
          assert Total(live, Custom(name)) + Need(req, Custom(name)) <= Limit(capacity, Custom(name));
          assert Get(capacity.custom, name) <= U64_MAX;
        }
      }
    }

    method AddCustom(amounts: map<string, nat>)
      modifies this`usage
      ensures usage == old(usage).(custom := usage.custom)
      ensures forall name :: Get(usage.custom, name) == Get(old(usage).custom, name) + Get(amounts, name)
    {
      var todo := amounts.Keys;
      while todo != {}
        invariant todo <= amounts.Keys
        invariant usage == old(usage).(custom := usage.custom)
        invariant forall name ::
                    Get(usage.custom, name) == Get(old(usage).custom, name) + if name in todo then 0 else Get(amounts, name)
        decreases |todo|
      {
        var name :| name in todo;
        usage := usage.(custom := usage.custom[name := Get(usage.custom, name) + amounts[name]]);
        todo := todo - {name};
      }
    }

    /** Subtracts released amounts; an entry that reaches zero is dropped. */
    method SubtractCustom(amounts: map<string, nat>)
      modifies this`usage
      ensures usage == old(usage).(custom := usage.custom)
      ensures forall name :: Get(usage.custom, name) == SaturatingSub(Get(old(usage).custom, name), Get(amounts, name))
    {
      var todo := amounts.Keys;
      while todo != {}
        invariant todo <= amounts.Keys
        invariant usage == old(usage).(custom := usage.custom)
        invariant forall name :: Get(usage.custom, name)
                    == SaturatingSub(Get(old(usage).custom, name), if name in todo then 0 else Get(amounts, name))
        decreases |todo|
      {
        var name :| name in todo;
        if name in usage.custom {
          var value := SaturatingSub(usage.custom[name], amounts[name]);
          usage := usage.(custom := if value == 0 then usage.custom - {name} else usage.custom[name := value]);
        }
        todo := todo - {name};
      }
    }

    /**
     Reserves resources. The verdict and the reservation are functions of the
     capacity, the live reservations and the request; nothing else matters.
     */
    method TryPrepare(req: Request) returns (r: EngineResult)
      requires Valid()
      modifies this
      ensures Valid()
      ensures r.Unsatisfiable? <==> !Fits(capacity, map[], req) || !NamesKnown(capacity, req)
      ensures r.TemporarilyUnavailable? <==>
                Fits(capacity, map[], req) && NamesKnown(capacity, req) && !Fits(capacity, old(live), req)
      ensures r.TokenExhausted? <==>
                NamesKnown(capacity, req) && Fits(capacity, old(live), req)
                && (old(nextToken).None? || old(nextToken).value >= U64_MAX)
      ensures !r.Reserved? ==>
                live == old(live) && usage == old(usage) && requests == old(requests) && nextToken == old(nextToken)
      ensures r.Reserved? ==>
                && Some(r.token) == old(nextToken) && nextToken == Some(r.token + 1)
                && r.token !in old(live)
                && live == old(live)[r.token := Granted(capacity, old(live), req)]
                && requests == old(requests)[r.token := req]
    {
      ExceedsCapacityIff(req);
      AvailableIffFits(req);
      if !Fits(capacity, map[], req) {
        UnfitWhenIdle(capacity, live, req);
      }
      if ExceedsCapacity(req) {
        return Unsatisfiable;
      }
      if !Available(req) {
        return TemporarilyUnavailable;
      }
      if nextToken.None? || nextToken.value >= U64_MAX {
        return TokenExhausted;
      }
      var token := nextToken.value;
      var chosen := Take(FreeGpus(capacity.gpus, Ids(usage.gpus), req.gpuLabels), req.gpuCount);
      var a := Allocation(req.cpuSlots, OrZero(req.memoryBytes), OrZero(req.diskBytes), chosen, req.custom);
      GrantedServes(capacity, live, req);
      Reserve(token, req, a);
      r := Reserved(token);
    }

    method Reserve(token: nat, req: Request, a: Allocation)
      requires Valid() && nextToken == Some(token) && Fits(capacity, live, req)
      requires a == Granted(capacity, live, req)
      modifies this
      ensures Valid()
      ensures nextToken == Some(token + 1)
      ensures live == old(live)[token := a] && requests == old(requests)[token := req]
    {
      GrantedServes(capacity, live, req);
      nextToken := Some(token + 1);
      usage := usage.(cpu := usage.cpu + a.cpu, memory := usage.memory + a.memory, disk := usage.disk + a.disk);
      usage := usage.(gpus := usage.gpus + a.gpus);
      AddCustom(a.custom);
      ReserveSums(capacity, old(usage), live, token, req, a, usage);
      ReserveHolds(capacity, old(usage), live, requests, token, req, a, usage);
      live := live[token := a];
      requests := requests[token := req];
    }

    /** Releases a reservation; releasing it again, or an unknown token, changes nothing. No subtraction saturates. */
    method Release(token: nat)
      requires Valid()
      modifies this
      ensures Valid()
      ensures live == old(live) - {token}
      ensures requests == old(requests) - {token}
      ensures nextToken == old(nextToken)
      ensures token in old(live) ==>
                forall dim: Dimension :: usage.At(dim) + Amount(old(live)[token], dim) == old(usage).At(dim)
      ensures token !in old(live) ==> usage == old(usage)
    {
      if token !in live {
        assert live - {token} == live && requests - {token} == requests;
        return;
      }
      var a := live[token];
      usage := usage.(cpu := SaturatingSub(usage.cpu, a.cpu),
                      memory := SaturatingSub(usage.memory, a.memory),
                      disk := SaturatingSub(usage.disk, a.disk));
      usage := usage.(gpus := Filter(usage.gpus, Ids(a.gpus)));
      SubtractCustom(a.custom);
      ReleaseSums(capacity, old(usage), live, token, usage);
      ReleaseHolds(capacity, old(usage), live, requests, token, usage);
      live := live - {token};
      requests := requests - {token};
    }
  }
}

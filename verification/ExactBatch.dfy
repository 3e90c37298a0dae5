/**
 Exact batches: caller-chosen ids bound to an ordered envelope of frozen requests.

 A digest is represented by the value it is computed from, which is what "no two payloads share a digest" means.
 */
module ExactBatch {
  import opened Wrappers

  type Id = string

  /** Every field of a request that the digest covers. */
  datatype Params = Params(
    text: string,
    language: string,
    seed: Option<nat>,
    modelSize: Option<string>,
    instruct: Option<string>,
    engine: Option<string>,
    personality: bool,
    maxChunkChars: nat,
    crossfadeMs: nat,
    normalize: bool,
    revision: Option<string>,
    effects: Option<string>)

  /** `sizeGiven` tells an explicit model size from the schema's default. */
  datatype Request = Request(profileId: string, expectedBinding: Option<string>, sizeGiven: bool, params: Params)

  datatype Item = Item(id: Id, request: Request)

  datatype RequestDigest = RequestDigest(params: Params, binding: Option<string>, effects: Option<string>)

  datatype Entry = Entry(id: Id, digest: RequestDigest)

  /** The ordered execution shape: serial when it has one entry, one model batch when it has two. */
  type Envelope = seq<Entry>

  datatype Snapshot = Snapshot(binding: Option<string>, details: string)

  /** What a row was accepted with.  The outer `None` is a column that holds no usable value. */
  datatype Contract = Contract(
    profileId: string,
    text: string,
    language: string,
    seed: Option<nat>,
    instruct: Option<string>,
    engine: string,
    modelSize: Option<string>,
    digest: Option<RequestDigest>,
    envelope: Option<Envelope>,
    effects: Option<Option<string>>,
    snapshot: Option<Snapshot>,
    binding: Option<string>)

  datatype Status = Generating | LoadingModel | Completed | Failed

  /** `incarnation` tells a row from an earlier one that had the same id and was deleted. */
  datatype Row = Row(contract: Contract, status: Status, incarnation: nat)

  function Ids(items: seq<Item>): (ids: seq<Id>)
    ensures |ids| == |items|
  {
    seq(|items|, k requires 0 <= k < |items| => items[k].id)
  }

  predicate Distinct<T(==)>(s: seq<T>) {
    forall j, k :: 0 <= j < k < |s| ==> s[j] != s[k]
  }

  /** An absent or empty value gives way to the next. */
  function Or(first: Option<string>, otherwise: string): string {
    if first.Some? && first.value != "" then first.value else otherwise
  }

  // ---- Matching a submission against the stored rows ----

  datatype Match = Fresh | Reattached(rows: seq<Row>) | Refused

  /** The row carries a frozen contract that the request's expected voice, if any, agrees with. */
  predicate Frozen(request: Request, c: Contract) {
    && c.effects.Some? && c.snapshot.Some? && c.snapshot.value.binding == c.binding
    && (request.expectedBinding.Some? ==> request.expectedBinding == c.binding)
  }

  function DigestFor(request: Request, c: Contract): RequestDigest
    requires c.effects.Some?
  {
    RequestDigest(request.params, c.binding, c.effects.value)
  }

  predicate AllStored(items: seq<Item>, rows: map<Id, Row>) {
    forall k :: 0 <= k < |items| ==> items[k].id in rows
  }

  predicate AllFrozen(items: seq<Item>, rows: map<Id, Row>)
    requires AllStored(items, rows)
  {
    forall k :: 0 <= k < |items| ==> Frozen(items[k].request, rows[items[k].id].contract)
  }

  function EnvelopeFor(items: seq<Item>, rows: map<Id, Row>): (e: Envelope)
    requires AllStored(items, rows) && AllFrozen(items, rows)
    ensures |e| == |items|
  {
    seq(|items|, k requires 0 <= k < |items| =>
      Entry(items[k].id, DigestFor(items[k].request, rows[items[k].id].contract)))
  }

  predicate SameRequest(request: Request, c: Contract, envelope: Envelope)
    requires c.effects.Some?
  {
    && c.profileId == request.profileId
    && c.text == request.params.text
    && c.language == request.params.language
    && c.seed == request.params.seed
    && c.instruct == request.params.instruct
    && c.engine == Or(request.params.engine, "qwen")
    && c.modelSize == Some(Or(request.params.modelSize, "1.7B"))
    && c.digest == Some(DigestFor(request, c))
    && c.envelope == Some(envelope)
  }

  predicate AllSame(items: seq<Item>, rows: map<Id, Row>, envelope: Envelope)
    requires AllStored(items, rows) && AllFrozen(items, rows)
  {
    forall k :: 0 <= k < |items| ==> SameRequest(items[k].request, rows[items[k].id].contract, envelope)
  }

  function RowsFor(items: seq<Item>, rows: map<Id, Row>): (r: seq<Row>)
    requires AllStored(items, rows)
    ensures |r| == |items|
  {
    seq(|items|, k requires 0 <= k < |items| => rows[items[k].id])
  }

  /** The declarative form: all ids are new, or all are stored under this very envelope, or it is refused. */
  function MatchOf(items: seq<Item>, rows: map<Id, Row>): Match {
    if forall k :: 0 <= k < |items| ==> items[k].id !in rows then Fresh
    else if AllStored(items, rows) && AllFrozen(items, rows) && AllSame(items, rows, EnvelopeFor(items, rows)) then
      Reattached(RowsFor(items, rows))
    else Refused
  }

  method MatchingExistingBatch(items: seq<Item>, rows: map<Id, Row>) returns (result: Match)
    ensures result == MatchOf(items, rows)
  {
    var found := 0;
    for k := 0 to |items|
      invariant 0 <= found <= k
      invariant found == 0 <==> forall j :: 0 <= j < k ==> items[j].id !in rows
      invariant found == k <==> forall j :: 0 <= j < k ==> items[j].id in rows
    {
      if items[k].id in rows {
        found := found + 1;
      }
    }
    if found == 0 {
      return Fresh;
    }
    if found != |items| {
      return Refused;
    }
    var envelope: Envelope := [];
    var ordered: seq<Row> := [];
    for k := 0 to |items|
      invariant AllStored(items, rows) && |envelope| == |ordered| == k
      invariant forall j :: 0 <= j < k ==>
                  && Frozen(items[j].request, rows[items[j].id].contract)
                  && envelope[j] == Entry(items[j].id, DigestFor(items[j].request, rows[items[j].id].contract))
                  && ordered[j] == rows[items[j].id]
    {
      var row := rows[items[k].id];
      if !Frozen(items[k].request, row.contract) {
        return Refused;
      }
      envelope := envelope + [Entry(items[k].id, DigestFor(items[k].request, row.contract))];
      ordered := ordered + [row];
    }
    assert envelope == EnvelopeFor(items, rows);
    assert ordered == RowsFor(items, rows);
    for k := 0 to |items|
      invariant forall j :: 0 <= j < k ==> SameRequest(items[j].request, rows[items[j].id].contract, envelope)
    {
      if !SameRequest(items[k].request, ordered[k].contract, envelope) {
        return Refused;
      }
    }
    return Reattached(ordered);
  }

  // ---- Accepting a new envelope ----

  datatype Profile = Profile(
    defaultEngine: Option<string>,
    presetEngine: Option<string>,
    cloned: bool,
    finetuned: bool,
    engines: set<string>,                 // the engines the profile can be used with
    snapshots: map<string, Snapshot>,     // what freezing the voice yields, by engine, where it succeeds
    effects: Option<string>)

  datatype Server = Server(
    profiles: map<string, Profile>,
    revision: string,
    pinned: set<string>,                  // the sizes of the pinned Qwen model
    chunks: (string, nat) -> nat)         // into how many chunks a text is split

  /** The model sizes of each engine, the default first. */
  const CATALOG := map[
    "qwen" := ["1.7B", "0.6B"],
    "qwen_custom_voice" := ["1.7B", "0.6B"],
    "luxtts" := ["default"],
    "chatterbox" := ["default"],
    "chatterbox_turbo" := ["default"],
    "tada" := ["1B", "3B"],
    "kokoro" := ["default"]]

  /** What the request schema guarantees of the two fields that have defaults. */
  predicate Parsed(request: Request) {
    && (request.sizeGiven || request.params.modelSize == Some("1.7B"))
    && (request.params.modelSize.Some? ==> request.params.modelSize.value in {"1.7B", "0.6B", "1B", "3B"})
    && (request.params.engine.Some? ==> request.params.engine.value in CATALOG)
  }

  function ResolveEngine(request: Request, profile: Profile): Option<string> {
    var p := request.params;
    var engine := Or(p.engine, Or(profile.defaultEngine, Or(profile.presetEngine, "qwen")));
    if p.revision.Some? && !profile.cloned && !profile.finetuned then None
    else if p.revision.Some? && engine == "qwen_custom_voice"
         && (!profile.finetuned || p.language != "es" || Or(p.instruct, "") != "") then None
    else Some(engine)
  }

  /** The outer `None` is an error; engines with a single model have no size. */
  function ResolveSize(engine: string, size: Option<string>): Option<Option<string>> {
    if engine !in CATALOG then None
    else if |CATALOG[engine]| == 1 then Some(None)
    else if size == None then Some(Some(CATALOG[engine][0]))
    else if size.value in CATALOG[engine] then Some(size)
    else None
  }

  predicate RevisionHolds(request: Request, server: Server) {
    request.params.revision == Some(server.revision)
  }

  /** A request is exact when it carries a seed and this server's revision. */
  predicate Exact(request: Request, server: Server) {
    RevisionHolds(request, server) && request.params.seed.Some?
  }

  /** What the route asks of a submission before it looks at anything stored. */
  predicate Current(items: seq<Item>, server: Server) {
    Distinct(Ids(items)) && forall k :: 0 <= k < |items| ==> Exact(items[k].request, server)
  }

  /** What a server makes of a submission: a stale one is refused before it is matched. */
  function Examine(items: seq<Item>, rows: map<Id, Row>, server: Server): Match {
    if Current(items, server) then MatchOf(items, rows) else Refused
  }

  /** Only the pinned Qwen sizes, and the fine-tuned voice at one size, are reproducible. */
  predicate Reproducible(engine: string, size: Option<string>, server: Server) {
    if engine == "qwen_custom_voice" then size == Some("1.7B")
    else engine == "qwen" && Or(size, "1.7B") in server.pinned
  }

  datatype Resolved = Resolved(engine: string, size: Option<string>)

  function Resolve(request: Request, profile: Profile, server: Server): Option<Resolved> {
    var engine := ResolveEngine(request, profile);
    if engine == None || engine.value !in profile.engines then None
    else
      var size := ResolveSize(engine.value, if request.sizeGiven then request.params.modelSize else None);
      if size == None || !Reproducible(engine.value, size.value, server) then None
      else Some(Resolved(engine.value, size.value))
  }

  predicate ShareContract(a: Request, b: Request, profile: Profile, server: Server) {
    && a.profileId == b.profileId
    && a.params.language == b.params.language
    && Resolve(a, profile, server) == Resolve(b, profile, server)
    && a.params.instruct == b.params.instruct
    && a.params.maxChunkChars == b.params.maxChunkChars
    && a.params.crossfadeMs == b.params.crossfadeMs
  }

  /** What a single request must meet, whatever it is batched with. */
  predicate UnitAcceptable(request: Request, profile: Profile, server: Server) {
    && Exact(request, server) && !request.params.personality
    && Resolve(request, profile, server).Some?
    && Resolve(request, profile, server).value.engine in profile.snapshots
    && (request.expectedBinding.Some? ==>
          request.expectedBinding == profile.snapshots[Resolve(request, profile, server).value.engine].binding)
  }

  /** What the two units of a model batch must meet. */
  predicate PairAcceptable(a: Request, b: Request, profile: Profile, server: Server) {
    && a.params.instruct == None && b.params.instruct == None
    && ShareContract(a, b, profile, server)
    && Resolve(a, profile, server).Some? && Resolve(a, profile, server).value.engine == "qwen"
    && server.chunks(a.params.text, a.params.maxChunkChars) == 1
    && server.chunks(b.params.text, b.params.maxChunkChars) == 1
  }

  predicate Acceptable(items: seq<Item>, server: Server) {
    && 1 <= |items| <= 2 && Distinct(Ids(items))
    && items[0].request.profileId in server.profiles
    && var profile := server.profiles[items[0].request.profileId];
       && (forall k :: 0 <= k < |items| ==> UnitAcceptable(items[k].request, profile, server))
       && (|items| == 2 ==> PairAcceptable(items[0].request, items[1].request, profile, server))
  }

  /** The voice is frozen once, for the engine of the first unit. */
  function FrozenVoice(items: seq<Item>, server: Server): Snapshot
    requires Acceptable(items, server)
  {
    var profile := server.profiles[items[0].request.profileId];
    profile.snapshots[Resolve(items[0].request, profile, server).value.engine]
  }

  function EffectsOf(request: Request, profile: Profile): Option<string> {
    if request.params.effects.Some? then request.params.effects else profile.effects
  }

  function NewDigest(request: Request, items: seq<Item>, server: Server): RequestDigest
    requires Acceptable(items, server)
  {
    RequestDigest(request.params, FrozenVoice(items, server).binding,
      EffectsOf(request, server.profiles[items[0].request.profileId]))
  }

  function NewEnvelope(items: seq<Item>, server: Server): (e: Envelope)
    requires Acceptable(items, server)
    ensures |e| == |items|
  {
    seq(|items|, k requires 0 <= k < |items| => Entry(items[k].id, NewDigest(items[k].request, items, server)))
  }

  /** The contract that a unit is stored with. */
  function NewContract(items: seq<Item>, k: nat, server: Server): Contract
    requires Acceptable(items, server) && k < |items|
  {
    var request := items[k].request;
    var profile := server.profiles[items[0].request.profileId];
    var resolved := Resolve(request, profile, server).value;
    var digest := NewDigest(request, items, server);
    Contract(
      request.profileId, request.params.text, request.params.language, request.params.seed, request.params.instruct,
      resolved.engine, resolved.size, Some(digest), Some(NewEnvelope(items, server)), Some(digest.effects),
      Some(FrozenVoice(items, server)), FrozenVoice(items, server).binding)
  }

  function NewContracts(items: seq<Item>, server: Server): (contracts: seq<Contract>)
    requires Acceptable(items, server)
    ensures |contracts| == |items|
  {
    seq(|items|, k requires 0 <= k < |items| => NewContract(items, k, server))
  }

  /** An accepted envelope as it is stored: its units, their contracts, and the envelope that binds them. */
  datatype Batch = Batch(items: seq<Item>, contracts: seq<Contract>, envelope: Envelope)

  /** Every contract names the whole envelope, and the envelope fixes every digested field of every unit. */
  predicate Sound(b: Batch) {
    && b.items != [] && Distinct(Ids(b.items))
    && |b.contracts| == |b.items| && |b.envelope| == |b.items|
    && forall k :: 0 <= k < |b.items| ==> Bound(b.items[k], b.contracts[k], b.envelope[k], b.envelope)
  }

  predicate Bound(item: Item, c: Contract, entry: Entry, envelope: Envelope) {
    && entry.id == item.id
    && entry.digest.params == item.request.params
    && c.profileId == item.request.profileId
    && c.envelope == Some(envelope)
  }

  function Accept(items: seq<Item>, server: Server): (b: Batch)
    requires Acceptable(items, server)
    ensures Sound(b) && b.items == items
  {
    Batch(items, NewContracts(items, server), NewEnvelope(items, server))
  }

  // ---- Idempotence ----

  /** What the matching code takes a request to ask for, against what acceptance resolved it to. */
  predicate NamesItsModel(request: Request, c: Contract) {
    && c.engine == Or(request.params.engine, "qwen")
    && c.modelSize == Some(Or(request.params.modelSize, "1.7B"))
  }

  /** The rows still carry the contracts of an accepted envelope. */
  predicate Carries(items: seq<Item>, contracts: seq<Contract>, rows: map<Id, Row>) {
    && |contracts| == |items|
    && AllStored(items, rows)
    && forall k :: 0 <= k < |items| ==> rows[items[k].id].contract == contracts[k]
  }

  /** The matching code fills in "qwen" for a request that names no engine; acceptance asks the profile first. */
  predicate EngineIsPresumed(request: Request, profile: Profile) {
    Or(request.params.engine, Or(profile.defaultEngine, Or(profile.presetEngine, "qwen")))
      == Or(request.params.engine, "qwen")
  }

  lemma ModelIsPresumed(items: seq<Item>, server: Server, k: nat)
    requires Acceptable(items, server) && k < |items| && Parsed(items[k].request)
    ensures NamesItsModel(items[k].request, NewContracts(items, server)[k])
        <==> EngineIsPresumed(items[k].request, server.profiles[items[0].request.profileId])
  {
  }

  /**
   Resubmitting an accepted envelope returns its own rows in order, whatever became of their status — exactly if
   the server still has the revision that it was accepted under, and every unit names its engine or its profile's
   default is the one presumed.
   */
  lemma {:induction false} ResubmissionReattaches(items: seq<Item>, server: Server, rows: map<Id, Row>, now: Server)
    requires Acceptable(items, server) && Carries(items, NewContracts(items, server), rows)
    requires forall k :: 0 <= k < |items| ==> Parsed(items[k].request)
    ensures Examine(items, rows, now) in {Reattached(RowsFor(items, rows)), Refused}
    ensures Examine(items, rows, now) == Reattached(RowsFor(items, rows))
        <==> now.revision == server.revision && AllPresumed(items, server)
  {
    ResubmissionByModel(items, server, rows);
    RevisionDecides(items, server, now);
    assert items[0].id in rows;
    forall k | 0 <= k < |items|
      ensures NamesItsModel(items[k].request, NewContracts(items, server)[k])
          <==> EngineIsPresumed(items[k].request, server.profiles[items[0].request.profileId])
    {
      ModelIsPresumed(items, server, k);
    }
  }

  predicate AllPresumed(items: seq<Item>, server: Server)
    requires Acceptable(items, server)
  {
    forall k :: 0 <= k < |items| ==>
      EngineIsPresumed(items[k].request, server.profiles[items[0].request.profileId])
  }

  /** An accepted envelope is current exactly on servers of its revision. */
  lemma {:induction false} RevisionDecides(items: seq<Item>, server: Server, now: Server)
    requires Acceptable(items, server)
    ensures Current(items, now) <==> now.revision == server.revision
  {
    assert forall k :: 0 <= k < |items| ==> Exact(items[k].request, server);
  }

  lemma {:induction false} ResubmissionByModel(items: seq<Item>, server: Server, rows: map<Id, Row>)
    requires Acceptable(items, server) && Carries(items, NewContracts(items, server), rows)
    ensures MatchOf(items, rows) == Reattached(RowsFor(items, rows))
        <==> forall k :: 0 <= k < |items| ==> NamesItsModel(items[k].request, NewContracts(items, server)[k])
  {
    var contracts := NewContracts(items, server);
    assert items[0].id in rows;
    forall k | 0 <= k < |items|
      ensures Frozen(items[k].request, contracts[k])
      ensures DigestFor(items[k].request, contracts[k]) == NewDigest(items[k].request, items, server)
    {
      assert contracts[k] == NewContract(items, k, server);
      SameVoice(items, k, server);
    }
    assert EnvelopeFor(items, rows) == NewEnvelope(items, server);
    forall k | 0 <= k < |items|
      ensures SameRequest(items[k].request, contracts[k], NewEnvelope(items, server))
          <==> NamesItsModel(items[k].request, contracts[k])
    {
      assert contracts[k] == NewContract(items, k, server);
    }
  }

  /** Both units of an accepted pair resolve to one engine, so the one frozen voice is each unit's voice. */
  lemma SameVoice(items: seq<Item>, k: nat, server: Server)
    requires Acceptable(items, server) && k < |items|
    ensures var profile := server.profiles[items[0].request.profileId];
            && Resolve(items[k].request, profile, server).Some?
            && Resolve(items[k].request, profile, server).value.engine in profile.snapshots
            && FrozenVoice(items, server) == profile.snapshots[Resolve(items[k].request, profile, server).value.engine]
  {
  }

  const FINE_TUNED := Profile(
    None, Some("qwen_custom_voice"), false, true, {"qwen_custom_voice"},
    map["qwen_custom_voice" := Snapshot(Some("voice"), "")], None)

  const ONE_PROFILE := Server(map["narrator" := FINE_TUNED], "r1", {"1.7B"}, (text, limit) => 1)

  const NO_ENGINE := Item("a", Request("narrator", None, false,
    Params("Hola", "es", Some(7), Some("1.7B"), None, None, false, 800, 50, true, Some("r1"), None)))

  /** A fine-tuned narrator addressed without an engine is accepted, and its own retry is then refused. */
  lemma RetryWithoutEngineIsRefused(rows: map<Id, Row>)
    requires Acceptable([NO_ENGINE], ONE_PROFILE)
    requires Carries([NO_ENGINE], NewContracts([NO_ENGINE], ONE_PROFILE), rows)
    ensures MatchOf([NO_ENGINE], rows) == Refused
  {
  }

  /** A server of another revision refuses every accepted envelope, engines named or not. */
  lemma {:induction false} RetryOnAnotherRevisionIsRefused(
      items: seq<Item>, server: Server, rows: map<Id, Row>, now: Server)
    requires Acceptable(items, server) && now.revision != server.revision
    ensures Examine(items, rows, now) == Refused
  {
    RevisionDecides(items, server, now);
  }

  lemma SuchARequestIsAccepted()
    ensures Acceptable([NO_ENGINE], ONE_PROFILE)
  {
  }

  /** The same requests in the same order; only the expected voice and the spelling of the default size may differ. */
  predicate SameEnvelope(a: seq<Item>, b: seq<Item>) {
    && |a| == |b|
    && forall k :: 0 <= k < |a| ==>
         && a[k].id == b[k].id
         && a[k].request.profileId == b[k].request.profileId
         && a[k].request.params == b[k].request.params
  }

  /**
   Nothing else is ever taken for an accepted envelope: what matches its rows is the same envelope, not
   reordered, split, merged or changed.
   */
  lemma {:induction false} OnlyTheEnvelopeReattaches(b: Batch, other: seq<Item>, rows: map<Id, Row>)
    requires Sound(b) && other != [] && MatchOf(other, rows).Reattached?
    requires rows[other[0].id].contract.envelope == Some(b.envelope)
    requires forall m :: 0 <= m < |b.items| && b.items[m].id in rows ==> rows[b.items[m].id].contract == b.contracts[m]
    ensures SameEnvelope(b.items, other)
  {
  }
}

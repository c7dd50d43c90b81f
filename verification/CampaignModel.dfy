/** The governed campaign as functions on its state: plan, gate, execute, verify, ingest. */
module CampaignModel {
  import opened Prelude
  import opened CutFlow
  import opened Shipment

  const STAGES: nat := 6
  const PLANNED: nat := 0
  const LAUNCH_GATE: nat := 1
  const COMPLETED: nat := 2
  const SHIPPED: nat := 3
  const VERIFIED: nat := 4
  const REGISTERED_STAGE: nat := 5

  ghost predicate SixStages(f: Flow) {
    forall leg :: leg in f ==> |f[leg].cells| == STAGES
  }

  type FleetFlow = f: Flow | SixStages(f) witness map[]

  ghost function Entered(f: FleetFlow, leg: string): FleetFlow {
    FlowEnter(f, STAGES, leg)
  }

  ghost function Marked(f: FleetFlow, leg: string, stage: nat, ok: bool, reason: string): FleetFlow
    requires stage < STAGES
  {
    FlowMark(f, STAGES, leg, stage, ok, reason)
  }

  /** `name` is the run name, which carries the content hash of the whole config. */
  datatype Config = Config(rid: string, name: string)

  /** A leg to plan, with what preflight and staging validation say about it. */
  datatype PlanLeg = PlanLeg(rid: string, name: string, violations: seq<string>)

  datatype Status = REGISTERED | SKIP_OK | CONFLICT | REJECTED | LOST

  predicate Succeeded(s: Status) { s.REGISTERED? || s.SKIP_OK? || s.CONFLICT? }

  /** The run field of a dispatch record: absent, a string, or something else with that text. */
  datatype RunField = Absent | Named(name: string) | Odd(text: string)

  datatype Record = Record(run: RunField, result: Option<Shipment>, skipped: bool)

  datatype Campaign = Campaign(
    flow: FleetFlow,
    configs: seq<Config>,
    ingested: map<string, Digest>,
    corpus: seq<(string, Shipment)>, // calls of the ingest callback, in order
    gated: bool)

  /** Fixed for the campaign: required engine blobs, and the finished results on disk. */
  datatype Setting = Setting(required: map<string, string>, done: map<string, Shipment>)

  // ---- plan and gate

  ghost predicate DistinctRids(legs: seq<PlanLeg>) {
    forall i, j :: 0 <= i < j < |legs| ==> legs[i].rid != legs[j].rid
  }

  ghost function PlanLegs(f: FleetFlow, legs: seq<PlanLeg>): FleetFlow {
    if legs == [] then f
    else
      var leg := legs[|legs| - 1];
      var g := Entered(PlanLegs(f, legs[..|legs| - 1]), leg.rid);
      Marked(g, leg.rid, PLANNED, leg.violations == [], Joined(leg.violations))
  }

  function Joined(v: seq<string>): string {
    if v == [] then "" else if |v| == 1 then v[0] else v[0] + "; " + Joined(v[1..])
  }

  function ValidConfigs(legs: seq<PlanLeg>): seq<Config> {
    if legs == [] then []
    else
      var leg := legs[|legs| - 1];
      ValidConfigs(legs[..|legs| - 1]) + if leg.violations == [] then [Config(leg.rid, leg.name)] else []
  }

  /** A duplicate rid is refused, but the gate has been reset by then. */
  ghost function Plan(c: Campaign, legs: seq<PlanLeg>): Campaign {
    if DistinctRids(legs)
    then c.(flow := PlanLegs(c.flow, legs), configs := ValidConfigs(legs), gated := false)
    else c.(gated := false)
  }

  function NamesOf(configs: seq<Config>): set<string> {
    set c | c in configs :: c.name
  }

  ghost function GateMarks(f: FleetFlow, configs: seq<Config>, ok: bool, reason: string): FleetFlow
    decreases configs
  {
    if configs == [] then f
    else GateMarks(Marked(f, configs[0].rid, LAUNCH_GATE, ok, reason), configs[1..], ok, reason)
  }

  ghost function Gate(c: Campaign, launched: seq<Config>, reason: string): Campaign {
    var ok := NamesOf(c.configs) == NamesOf(launched);
    c.(flow := GateMarks(c.flow, c.configs, ok, if ok then "" else reason), gated := ok)
  }

  // ---- govern one shipment

  predicate WellShaped(s: Shipment) {
    s.Parcel? && s.products.Dict? && !s.sidecar.WrongType? && !s.attested.WrongType?
  }

  ghost function PassStages(f: FleetFlow, rid: string, first: nat, last: nat): FleetFlow
    requires first <= last <= STAGES
    decreases last - first
  {
    if first == last then f
    else PassStages(Marked(f, rid, first, true, ""), rid, first + 1, last)
  }

  ghost function ConflictRow(f: FleetFlow, rid: string): FleetFlow {
    Marked(PassStages(Entered(f, rid + ".conflict"), rid + ".conflict", 0, REGISTERED_STAGE),
           rid + ".conflict", REGISTERED_STAGE, false, "CONFLICT")
  }

  ghost function Ingest(c: Campaign, rid: string, s: Shipment): (Campaign, Status)
    requires s.Parcel? && s.products.Dict?
  {
    var content := HashProducts(s.products.value);
    if content.None? then
      (c.(flow := Marked(c.flow, rid, REGISTERED_STAGE, false, "unhashable products")), REJECTED)
    else
      Accept(c.(flow := Marked(c.flow, rid, REGISTERED_STAGE, true, "")), rid, s, content.value)
  }

  /** New content is ingested once; known content is a no-op; other content is a conflict,
      recorded beside the leg and never written over it. */
  ghost function Accept(c: Campaign, rid: string, s: Shipment, content: Digest): (Campaign, Status) {
    if rid !in c.ingested then
      (c.(ingested := c.ingested[rid := content], corpus := c.corpus + [(rid, s)]), REGISTERED)
    else if c.ingested[rid] == content then (c, SKIP_OK)
    else (c.(flow := ConflictRow(c.flow, rid)), CONFLICT)
  }

  ghost function Govern(c: Campaign, rid: string, s: Shipment, required: map<string, string>): (Campaign, Status) {
    GovernShape(c.(flow := Marked(c.flow, rid, COMPLETED, true, "")), rid, s, required)
  }

  ghost function GovernShape(c: Campaign, rid: string, s: Shipment, required: map<string, string>): (Campaign, Status) {
    if !WellShaped(s) then (c.(flow := Marked(c.flow, rid, SHIPPED, false, "malformed shipment")), REJECTED)
    else GovernContent(c.(flow := Marked(c.flow, rid, SHIPPED, true, "")), rid, s, required)
  }

  ghost function GovernContent(c: Campaign, rid: string, s: Shipment, required: map<string, string>): (Campaign, Status)
    requires WellShaped(s)
  {
    if !Verified(s, required) then (c.(flow := Marked(c.flow, rid, VERIFIED, false, "violations")), REJECTED)
    else Ingest(c.(flow := Marked(c.flow, rid, VERIFIED, true, "")), rid, s)
  }

  ghost function Lose(c: Campaign, rid: string, reason: string): Campaign {
    c.(flow := Marked(c.flow, rid, COMPLETED, false, reason))
  }

  ghost function OnSkip(c: Campaign, cfg: Config, env: Setting): (Campaign, Status) {
    if cfg.rid in c.ingested then (c.(flow := PassStages(c.flow, cfg.rid, COMPLETED, STAGES)), SKIP_OK)
    else if cfg.name in env.done then Govern(c, cfg.rid, env.done[cfg.name], env.required)
    else (Lose(c, cfg.rid, "skip signaled but no DONE.json result"), LOST)
  }

  // ---- execute one leg

  datatype RunOutcome = Died(message: string) | Shipped(result: Option<Shipment>)

  ghost function ExecuteLeg(c: Campaign, cfg: Config, outcome: RunOutcome, env: Setting): (Campaign, Status) {
    var d := if cfg.rid in c.flow then c else c.(flow := Entered(c.flow, cfg.rid));
    match outcome
    case Died(message) => (Lose(d, cfg.rid, "HOST_LOST: " + message), LOST)
    case Shipped(None) => OnSkip(d, cfg, env)
    case Shipped(Some(s)) => Govern(d, cfg.rid, s, env.required)
  }

  // ---- execute the fleet

  /** The dictionary from run names to planned configs: a later config wins. */
  function ByName(configs: seq<Config>, name: string): Option<Config> {
    if configs == [] then None
    else if configs[|configs| - 1].name == name then Some(configs[|configs| - 1])
    else ByName(configs[..|configs| - 1], name)
  }

  function Lookup(configs: seq<Config>, run: RunField): Option<Config> {
    if run.Named? then ByName(configs, run.name) else None
  }

  function KeyText(run: RunField): string {
    match run
    case Absent => "?"
    case Named(name) => name
    case Odd(text) => text
  }

  function Rids(configs: seq<Config>): set<string> {
    set c | c in configs :: c.rid
  }

  function AtLeastAsLong(key: string, taken: set<string>): set<string> {
    set k | k in taken && |k| >= |key|
  }

  lemma LongerKeysAreFewer(key: string, taken: set<string>)
    requires key in taken
    ensures AtLeastAsLong(key + ".unplanned", taken) < AtLeastAsLong(key, taken)
  {
    assert |key + ".unplanned"| > |key|;
    assert key in AtLeastAsLong(key, taken) && key !in AtLeastAsLong(key + ".unplanned", taken);
    assert AtLeastAsLong(key + ".unplanned", taken) <= AtLeastAsLong(key, taken);
  }

  /** Appends ".unplanned" until the key is neither a planned rid nor already reported. */
  function FreshKey(key: string, taken: set<string>): (unused: string)
    ensures unused !in taken
    decreases AtLeastAsLong(key, taken)
  {
    if key in taken then
      LongerKeysAreFewer(key, taken);
      FreshKey(key + ".unplanned", taken)
    else key
  }

  type Report = map<string, Status>

  ghost function FleetRecord(c: Campaign, out: Report, rec: Record, env: Setting): (Campaign, Report) {
    match Lookup(c.configs, rec.run)
    case None =>
      var key := FreshKey(KeyText(rec.run), Rids(c.configs) + out.Keys);
      (c.(flow := Marked(Entered(c.flow, key), key, COMPLETED, false, "unplanned run name")),
       out[key := REJECTED])
    case Some(cfg) =>
      if cfg.rid in out then
        var dup := cfg.rid + ".dup";
        (c.(flow := Marked(Entered(c.flow, dup), dup, COMPLETED, false, "duplicate dispatch record")), out)
      else
        var (d, status) := PlannedRecord(c, cfg, rec, env);
        (d, out[cfg.rid := status])
  }

  ghost function PlannedRecord(c: Campaign, cfg: Config, rec: Record, env: Setting): (Campaign, Status) {
    var d := if cfg.rid in c.flow then c else c.(flow := Entered(c.flow, cfg.rid));
    match rec.result
    case Some(s) => Govern(d, cfg.rid, s, env.required)
    case None =>
      if rec.skipped then OnSkip(d, cfg, env)
      else (Lose(d, cfg.rid, "no result (host lost)"), LOST)
  }

  ghost function FleetRecords(c: Campaign, recs: seq<Record>, env: Setting): (Campaign, Report) {
    if recs == [] then (c, map[])
    else
      var (d, out) := FleetRecords(c, recs[..|recs| - 1], env);
      FleetRecord(d, out, recs[|recs| - 1], env)
  }

  /** Planned configs no record reported are lost, in plan order. */
  ghost function Reconcile(c: Campaign, out: Report, configs: seq<Config>): (Campaign, Report) {
    if configs == [] then (c, out)
    else
      var (d, o) := Reconcile(c, out, configs[..|configs| - 1]);
      var rid := configs[|configs| - 1].rid;
      if rid in o then (d, o) else (Lose(d, rid, "dispatch returned no record"), o[rid := LOST])
  }

  ghost function ExecuteFleet(c: Campaign, recs: seq<Record>, env: Setting): (Campaign, Report) {
    var (d, out) := FleetRecords(c, recs, env);
    Reconcile(d, out, c.configs)
  }
}

/** Agent Q: turns each token pixel into one navigation decision and keeps a
    log of the decisions it made. */
module Agent {
  import opened Options
  import opened Corridors
  import opened Voxels
  import opened Interpreter
  import opened Drift

  datatype StateVector = StateVector(phi: real, psi: real, omega: real, tau: real)

  /** One token pixel. `prevHash` and `hash` are carried as text and never
      checked by the runtime. */
  datatype TokenPixel = TokenPixel(
    tokenPixelId: string,
    timestamp: real,
    agentId: string,
    corridor: string,
    stateVector: StateVector,
    intentHash: string,
    eventDelta: string,
    autonomyIndex: real,
    voxelSignature: string,
    prevHash: string,
    hash: string)

  datatype Action = Halt | AvoidObstacle | RealignIntent | ExecuteImmediate | Continue

  /** The action name as the decision carries it. */
  function ActionName(a: Action): string {
    match a
    case Halt => "HALT"
    case AvoidObstacle => "AVOID_OBSTACLE"
    case RealignIntent => "REALIGN_INTENT"
    case ExecuteImmediate => "EXECUTE_IMMEDIATE"
    case Continue => "CONTINUE"
  }

  /** A value in a decision's parameter dictionary. */
  datatype ParamValue = TextValue(text: string) | NumberValue(number: real)

  datatype Decision = Decision(action: Action, reason: string, params: map<string, ParamValue>)

  /** The four facts `decide` reads from its keyword context. */
  datatype Context = Context(
    driftStatus: DriftStatus,
    collisionAhead: bool,
    aligned: bool,
    intentLabel: Option<string>)

  /** The label that asks for immediate execution. */
  const UrgentLabel := "EXECUTE_URGENT"

  /** Whether the facts call for an action at all (Continue always applies). */
  predicate Triggered(ctx: Context, a: Action) {
    match a
    case Halt => ctx.driftStatus == Critical
    case AvoidObstacle => ctx.collisionAhead
    case RealignIntent => !ctx.aligned
    case ExecuteImmediate => ctx.intentLabel == Some(UrgentLabel)
    case Continue => true
  }

  /** The fixed order in which triggered actions win: lower goes first. */
  function Priority(a: Action): nat {
    match a
    case Halt => 0
    case AvoidObstacle => 1
    case RealignIntent => 2
    case ExecuteImmediate => 3
    case Continue => 4
  }

  /** `QubeRuntime.decide`: the triggered action of highest priority. */
  function Decide(ctx: Context): (d: Decision)
    ensures Triggered(ctx, d.action)
    ensures forall a :: Triggered(ctx, a) ==> Priority(d.action) <= Priority(a)
  {
    if ctx.driftStatus == Critical then
      Decision(Halt, "Critical autonomy drift detected", map[])
    else if ctx.collisionAhead then
      Decision(AvoidObstacle, "Collision detected in voxel neighborhood", map["direction" := TextValue("left")])
    else if !ctx.aligned then
      Decision(RealignIntent, "Intent alignment below threshold", map["target_psi" := NumberValue(0.8)])
    else if ctx.intentLabel == Some(UrgentLabel) then
      Decision(ExecuteImmediate, "Urgent intent detected", map[])
    else
      Decision(Continue, "Nominal operation", map[])
  }

  /** Critical drift halts, whatever the other three facts are. */
  lemma HaltOnCriticalDrift(ctx: Context)
    requires ctx.driftStatus == Critical
    ensures Decide(ctx).action == Halt
    ensures Decide(ctx).reason == "Critical autonomy drift detected" && Decide(ctx).params == map[]
  {
  }

  /** The priority order pins the action down: it is the only action that is
      triggered and beats or ties every other triggered one. */
  lemma DecisionUnique(ctx: Context, a: Action)
    requires Triggered(ctx, a)
    requires forall b :: Triggered(ctx, b) ==> Priority(a) <= Priority(b)
    ensures a == Decide(ctx).action
  {
  }

  /** Each action comes with its own parameters: a left turn to avoid an
      obstacle, a target psi of 0.8 to realign, none otherwise. */
  lemma DecisionParams(ctx: Context)
    ensures var d := Decide(ctx);
            (d.action == AvoidObstacle ==> d.params == map["direction" := TextValue("left")]) &&
            (d.action == RealignIntent ==> d.params == map["target_psi" := NumberValue(0.8)]) &&
            (d.action in {Halt, ExecuteImmediate, Continue} ==> d.params == map[])
  {
  }

  /** One entry of `decision_log`. */
  datatype LogEntry = LogEntry(pixelId: string, decision: Decision, timestamp: real)

  /** The configuration the runtime reads: the corridor graph and the intent
      database. */
  datatype QubeConfig = QubeConfig(corridorGraph: map<string, seq<string>>, intentDatabase: map<string, string>)

  /** The facts `process_pixel` gathers from one pixel. */
  function PixelContext(pixel: TokenPixel, intentDatabase: map<string, string>): Context {
    Context(
      Classify(pixel.autonomyIndex, DefaultWarningThreshold, DefaultCriticalThreshold),
      CollisionAhead(DecodeSignature(pixel.voxelSignature), "forward"),
      IsIntentAligned(pixel.stateVector.psi),
      LookupIntent(intentDatabase, pixel.intentHash))
  }

  /** The decision for one pixel: it depends on the pixel and the intent
      database only, never on earlier pixels. */
  function PixelDecision(pixel: TokenPixel, intentDatabase: map<string, string>): Decision {
    Decide(PixelContext(pixel, intentDatabase))
  }

  /** The urgent label reaches the decision exactly when the database stores
      it under the pixel's intent hash, so a hash the database does not know
      never leads to immediate execution. */
  lemma UrgentIntent(pixel: TokenPixel, intentDatabase: map<string, string>)
    ensures PixelContext(pixel, intentDatabase).intentLabel == Some(UrgentLabel) <==>
              pixel.intentHash in intentDatabase && intentDatabase[pixel.intentHash] == UrgentLabel
    ensures pixel.intentHash !in intentDatabase ==>
              PixelDecision(pixel, intentDatabase).action != ExecuteImmediate
  {
  }

  /** `QubeRuntime`: the drift monitor and the voxel cache are the state that
      survives from one pixel to the next, with the decision log. */
  class QubeRuntime {
    const config: QubeConfig
    const driftMonitor: AutonomyDriftMonitor
    const collisionDetector: VoxelCollisionDetector
    var decisionLog: seq<LogEntry>

    ghost predicate Valid()
      reads this, driftMonitor, collisionDetector
    {
      && driftMonitor.Valid()
      && collisionDetector.Valid()
      && driftMonitor.warningThreshold == DefaultWarningThreshold
      && driftMonitor.criticalThreshold == DefaultCriticalThreshold
    }

    constructor (config: QubeConfig)
      ensures Valid()
      ensures this.config == config
      ensures fresh(driftMonitor) && fresh(collisionDetector)
      ensures decisionLog == []
      ensures driftMonitor.driftHistory == [] && collisionDetector.voxelCache == map[]
    {
      this.config := config;
      driftMonitor := new AutonomyDriftMonitor();
      collisionDetector := new VoxelCollisionDetector();
      decisionLog := [];
    }

    /** `process_pixel`: gather the facts, decide, and log the decision. */
    method ProcessPixel(pixel: TokenPixel) returns (decision: Decision)
      requires Valid()
      modifies this, driftMonitor, collisionDetector
      ensures Valid()
      ensures decision == PixelDecision(pixel, config.intentDatabase)
      ensures decisionLog == old(decisionLog) + [LogEntry(pixel.tokenPixelId, decision, pixel.timestamp)]
      ensures driftMonitor.driftHistory == Retain(old(driftMonitor.driftHistory) + [pixel.autonomyIndex])
      ensures collisionDetector.voxelCache == match ParseSignature(pixel.voxelSignature)
                                              case Some(v) => old(collisionDetector.voxelCache)[pixel.voxelSignature := v]
                                              case None => old(collisionDetector.voxelCache)
    {
      var corridor := ParseCorridor(pixel.corridor);
      var aligned := IsIntentAligned(pixel.stateVector.psi);
      var activity := GetActivityLevel(pixel.stateVector.omega);
      var driftStatus := driftMonitor.CheckDrift(pixel.autonomyIndex);
      var voxelBits := collisionDetector.DecodeVoxelSignature(pixel.voxelSignature);
      var collisionAhead := collisionDetector.IsCollisionAhead(voxelBits, "forward");
      var intentLabel := LookupIntent(config.intentDatabase, pixel.intentHash);
      decision := Decide(Context(driftStatus, collisionAhead, aligned, intentLabel));
      decisionLog := decisionLog + [LogEntry(pixel.tokenPixelId, decision, pixel.timestamp)];
    }
  }
}

/** The default configuration of Agent Q and the runtime's reference
    scenarios, stated as lemmas about the model. */
module Scenarios {
  import opened Options
  import opened Text
  import opened Numerals
  import opened Corridors
  import opened Voxels
  import opened Interpreter
  import opened Drift
  import opened Agent

  /** `get_default_config`: the corridor graph and the intent database. */
  function DefaultConfig(): QubeConfig {
    QubeConfig(
      map["DISTRICT_1.CHAMBER_0.NODE_START" := ["DISTRICT_1.CHAMBER_0.NODE_PROCESS"],
          "DISTRICT_1.CHAMBER_0.NODE_PROCESS" := ["DISTRICT_2.CHAMBER_LORA.NODE_PRE"]],
      map["sha256:9f2c8d1e" := "EXECUTE_TASK",
          "sha256:8b1d2f3c" := "NAVIGATE_CORRIDOR",
          "sha256:urgent00" := "EXECUTE_URGENT"])
  }

  /** The reference pixel: well aligned, low drift, no occupied voxel. */
  const SamplePixel := TokenPixel(
    "TPX_TEST_01", 1737140000.0, "AGENT_Q", "DISTRICT_1.CHAMBER_0.NODE_START",
    StateVector(0.5, 0.9, 1.0, 100.0),
    "sha256:9f2c8d1e", "EVENT_001", 0.1, "VXL_0x00000000", "hash_prev", "hash_curr")

  /** Zero has no bit set. */
  lemma {:induction false} ZeroBits(p: nat)
    ensures !BitSet(0, p)
  {
    if p > 0 {
      ZeroBits(p - 1);
    }
  }

  /** The empty voxel signature decodes to no bits. */
  lemma EmptySignature()
    ensures DecodeSignature("VXL_0x00000000") == 0
  {
    MissingChar("VXL_", "0x", 0);
    AllZeros("00000000", 16);
    assert "VXL_0x00000000" == "VXL_" + "0x" + "00000000";
    DecodeHex("VXL_", "00000000");
  }

  /** `VXL_0x00000004` decodes to bit 2 alone. */
  lemma BitTwoSignature()
    ensures DecodeSignature("VXL_0x00000004") == 4
  {
    MissingChar("VXL_", "0x", 0);
    assert DigitsValue("4", 16) == 4 by {
      assert "4"[..0] == "";
    }
    assert "00000004" == "0000000" + "4";
    LeadingZeros("0000000", "4", 16);
    assert "VXL_0x00000004" == "VXL_" + "0x" + "00000004";
    DecodeHex("VXL_", "00000004");
  }

  /** No bits means no collision; bit 2 lies on the forward face. */
  lemma ForwardFace()
    ensures !CollisionAhead(0, "forward")
    ensures CollisionAhead(4, "forward")
  {
    forall k | 0 <= k < |FaceBits("forward")| ensures !BitSet(0, FaceBits("forward")[k]) {
      ZeroBits(FaceBits("forward")[k]);
    }
    assert BitSet(4, FaceBits("forward")[0]);
  }

  lemma SampleVoxels()
    ensures DecodeSignature("VXL_0x00000000") == 0
    ensures DecodeSignature("VXL_0x00000004") == 4
    ensures !CollisionAhead(0, "forward")
    ensures CollisionAhead(4, "forward")
  {
    EmptySignature();
    BitTwoSignature();
    ForwardFace();
  }

  /** The reference pixel continues with normal operation. */
  lemma NominalDecision()
    ensures PixelDecision(SamplePixel, DefaultConfig().intentDatabase) == Decision(Continue, "Nominal operation", map[])
  {
    SampleVoxels();
  }

  /** The same pixel with autonomy index 0.95 halts. */
  lemma DriftAlertDecision()
    ensures PixelDecision(SamplePixel.(autonomyIndex := 0.95), DefaultConfig().intentDatabase)
            == Decision(Halt, "Critical autonomy drift detected", map[])
  {
  }

  /** The same pixel with psi 0.2 realigns. */
  lemma RealignmentDecision()
    ensures PixelDecision(SamplePixel.(stateVector := SamplePixel.stateVector.(psi := 0.2)),
                          DefaultConfig().intentDatabase).action == RealignIntent
  {
    SampleVoxels();
  }

  /** The same pixel with voxel signature `VXL_0x00000004` avoids the obstacle. */
  lemma CollisionDecision()
    ensures PixelDecision(SamplePixel.(voxelSignature := "VXL_0x00000004"),
                          DefaultConfig().intentDatabase).action == AvoidObstacle
  {
    SampleVoxels();
  }

  /** The same pixel carrying the urgent intent hash executes immediately. */
  lemma UrgentDecision()
    ensures PixelDecision(SamplePixel.(intentHash := "sha256:urgent00"),
                          DefaultConfig().intentDatabase).action == ExecuteImmediate
  {
    SampleVoxels();
  }

  /** The reference corridor is the key of its three parts. */
  lemma SampleCorridorKey()
    ensures CorridorKey(Corridor(1, "CHAMBER_0", "NODE_START")) == "DISTRICT_1.CHAMBER_0.NODE_START"
  {
    assert IntToDecimal(1) == "1" by {
      assert NatToDecimal(1) == [DecimalChar(1)];
    }
  }

  /** The reference corridor parses into its parts and has one neighbour. */
  lemma SampleCorridor()
    ensures ParseCorridor(SamplePixel.corridor) == Corridor(1, "CHAMBER_0", "NODE_START")
    ensures GetNeighbors(DefaultConfig().corridorGraph, ParseCorridor(SamplePixel.corridor))
            == ["DISTRICT_1.CHAMBER_0.NODE_PROCESS"]
  {
    SampleCorridorKey();
    ParseKey(Corridor(1, "CHAMBER_0", "NODE_START"));
  }

  /** Text without dots falls back to the unknown corridor. */
  lemma UndottedCorridor()
    ensures ParseCorridor("NODE_START") == Unknown
  {
    MissingChar("NODE_START", ".", 0);
    SplitWithout("NODE_START", ".");
  }

  /** A fresh runtime has an empty log; processing the reference pixel logs one
      Continue decision under the pixel's id and timestamp, and records its
      autonomy index once. */
  method NominalRun() returns (decision: Decision, log: seq<LogEntry>, history: seq<real>)
    ensures decision == Decision(Continue, "Nominal operation", map[])
    ensures log == [LogEntry("TPX_TEST_01", decision, 1737140000.0)]
    ensures ActionName(log[0].decision.action) == "CONTINUE"
    ensures history == [0.1]
  {
    var runtime := new QubeRuntime(DefaultConfig());
    assert runtime.decisionLog == [];
    NominalDecision();
    decision := runtime.ProcessPixel(SamplePixel);
    log := runtime.decisionLog;
    history := runtime.driftMonitor.driftHistory;
  }

  /** Decoding a signature twice on one detector gives the same bits, and the
      second decode leaves the cache as the first left it. */
  method RepeatedDecode(signature: string)
    returns (first: nat, second: nat, cacheAfterFirst: map<string, nat>, cacheAfterSecond: map<string, nat>)
    ensures first == second == DecodeSignature(signature)
    ensures cacheAfterSecond == cacheAfterFirst
  {
    var detector := new VoxelCollisionDetector();
    first := detector.DecodeVoxelSignature(signature);
    cacheAfterFirst := detector.voxelCache;
    second := detector.DecodeVoxelSignature(signature);
    cacheAfterSecond := detector.voxelCache;
  }
}

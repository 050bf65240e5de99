/** The decaying abuse score of an actor, and the windows of history it stands for.

Scores and weights are reals: the rounding of floating-point numbers is not part of this model.
*/
module AbuseScore {
  import opened Numbers
  import opened Wrappers

  /** `None` stands for an option that is left out. */
  datatype Config = Config(penaltyScoreLimit: real, decayRate: real, maxEntries: nat, cleanupTtlMs: int)

  datatype SignalType = Request | AuthFail | InvalidXdr

  datatype Category = BruteForce | PayloadAnomaly | RateLimitTrip | Enumeration

  datatype Signal = Signal(actor: string, weight: Option<real>, signalType: SignalType, category: Option<Category>)

  datatype ScoreRecord = ScoreRecord(score: real, lastSeen: int)

  /** A signal as it counts: its weight and when it came, in milliseconds. */
  datatype Hit = Hit(weight: real, at: int)

  function WeightOf(signal: Signal): real {
    if signal.weight.Some? then signal.weight.value
    else if signal.signalType == AuthFail then 10.0 else 1.0
  }

  function InferCategory(signalType: SignalType): Category {
    match signalType
    case AuthFail => BruteForce
    case InvalidXdr => PayloadAnomaly
    case Request => RateLimitTrip
  }

  function CategoryOf(signal: Signal): Category {
    if signal.category.Some? then signal.category.value else InferCategory(signal.signalType)
  }

  function MaxReal(a: real, b: real): real {
    if a < b then b else a
  }

  function DecayOver(decayRate: real, ms: int): real {
    (ms as real) / 1000.0 * decayRate
  }

  /** A record after one more hit. */
  function Bumped(decayRate: real, record: ScoreRecord, hit: Hit): ScoreRecord {
    ScoreRecord(MaxReal(0.0, record.score - DecayOver(decayRate, hit.at - record.lastSeen)) + hit.weight, hit.at)
  }

  /** The record of an actor after these hits, tracked from the first. */
  function RecordOf(decayRate: real, hits: seq<Hit>): ScoreRecord
    requires hits != []
  {
    var last := hits[|hits| - 1];
    Bumped(decayRate, if |hits| == 1 then ScoreRecord(0.0, last.at) else RecordOf(decayRate, hits[..|hits| - 1]), last)
  }

  // --- the closed form ---

  function TotalWeight(hits: seq<Hit>): real {
    if hits == [] then 0.0 else TotalWeight(hits[..|hits| - 1]) + hits[|hits| - 1].weight
  }

  /** What the hits from number i on weigh, less the decay from the first to the last of them. */
  function Carried(decayRate: real, hits: seq<Hit>, i: nat): real
    requires i < |hits|
  {
    TotalWeight(hits[i..]) - DecayOver(decayRate, hits[|hits| - 1].at - hits[i].at)
  }

  lemma {:induction false} DecayAdds(decayRate: real, a: int, b: int)
    ensures DecayOver(decayRate, a + b) == DecayOver(decayRate, a) + DecayOver(decayRate, b)
  {
    assert ((a + b) as real) / 1000.0 == (a as real) / 1000.0 + (b as real) / 1000.0;
  }

  lemma {:induction false} NoDecay(decayRate: real)
    ensures DecayOver(decayRate, 0) == 0.0
  {
  }

  lemma {:induction false} CarriedOn(decayRate: real, hits: seq<Hit>, hit: Hit, i: nat)
    requires i < |hits|
    ensures Carried(decayRate, hits + [hit], i)
         == Carried(decayRate, hits, i) - DecayOver(decayRate, hit.at - hits[|hits| - 1].at) + hit.weight
  {
    var all := hits + [hit];
    assert all[i..] == hits[i..] + [hit];
    assert (hits[i..] + [hit])[..|hits[i..]|] == hits[i..];
    DecayAdds(decayRate, hits[|hits| - 1].at - hits[i].at, hit.at - hits[|hits| - 1].at);
  }

  lemma {:induction false} CarriedLast(decayRate: real, hits: seq<Hit>, hit: Hit)
    ensures Carried(decayRate, hits + [hit], |hits|) == hit.weight
  {
    assert (hits + [hit])[|hits|..] == [hit];
    assert [hit][..0] == [];
    assert TotalWeight([hit]) == hit.weight;
    NoDecay(decayRate);
  }

  lemma {:induction false} OneMoreHit(decayRate: real, hits: seq<Hit>, hit: Hit)
    requires hits != []
    ensures RecordOf(decayRate, hits + [hit]) == Bumped(decayRate, RecordOf(decayRate, hits), hit)
  {
    assert (hits + [hit])[..|hits|] == hits;
  }

  /** The score in closed form: the largest amount that any stretch of the history, from one of its hits
      to the last, carries after the decay over its length. */
  lemma {:induction false} ScoreIsBestWindow(decayRate: real, hits: seq<Hit>)
    requires hits != []
    ensures RecordOf(decayRate, hits).lastSeen == hits[|hits| - 1].at
    ensures forall i :: 0 <= i < |hits| ==> Carried(decayRate, hits, i) <= RecordOf(decayRate, hits).score
    ensures exists i :: 0 <= i < |hits| && Carried(decayRate, hits, i) == RecordOf(decayRate, hits).score
    decreases |hits|
  {
    var n := |hits| - 1;
    var before := hits[..n];
    var hit := hits[n];
    assert hits == before + [hit];
    CarriedLast(decayRate, before, hit);
    if n == 0 {
      NoDecay(decayRate);
      assert Carried(decayRate, hits, 0) == RecordOf(decayRate, hits).score;
    } else {
      ScoreIsBestWindow(decayRate, before);
      OneMoreHit(decayRate, before, hit);
      BestWindowOn(decayRate, before, hit);
    }
  }

  lemma {:induction false} BestWindowOn(decayRate: real, before: seq<Hit>, hit: Hit)
    requires before != [] && RecordOf(decayRate, before).lastSeen == before[|before| - 1].at
    requires forall i :: 0 <= i < |before| ==> Carried(decayRate, before, i) <= RecordOf(decayRate, before).score
    requires exists i :: 0 <= i < |before| && Carried(decayRate, before, i) == RecordOf(decayRate, before).score
    ensures var score := Bumped(decayRate, RecordOf(decayRate, before), hit).score;
            && (forall i :: 0 <= i <= |before| ==> Carried(decayRate, before + [hit], i) <= score)
            && (exists i :: 0 <= i <= |before| && Carried(decayRate, before + [hit], i) == score)
  {
    hide Carried, DecayOver, RecordOf;
    var score := Bumped(decayRate, RecordOf(decayRate, before), hit).score;
    CarriedLast(decayRate, before, hit);
    forall i | 0 <= i <= |before| ensures Carried(decayRate, before + [hit], i) <= score {
      if i < |before| {
        CarriedOn(decayRate, before, hit, i);
      }
    }
    var best :| 0 <= best < |before| && Carried(decayRate, before, best) == RecordOf(decayRate, before).score;
    CarriedOn(decayRate, before, hit, best);
    if score == hit.weight {
      assert Carried(decayRate, before + [hit], |before|) == score;
    } else {
      assert Carried(decayRate, before + [hit], best) == score;
    }
  }

  /** The hits of n equal signals of one moment. */
  function Burst(signal: Signal, n: nat, at: int): seq<Hit> {
    if n == 0 then [] else Burst(signal, n - 1, at) + [Hit(WeightOf(signal), at)]
  }

  /** n times a weight, by adding it up. */
  function Added(n: nat, each: real): real {
    if n == 0 then 0.0 else Added(n - 1, each) + each
  }

  /** A burst weighs its number of signals times what one weighs: its own weight if it has one, else ten for a
      failed authentication and one for anything else. */
  lemma {:induction false} BurstScore(decayRate: real, signal: Signal, n: nat, at: int)
    requires n >= 1 && (signal.weight.Some? ==> signal.weight.value >= 0.0)
    ensures |Burst(signal, n, at)| == n
    ensures var each := if signal.weight.Some? then signal.weight.value else if signal.signalType.AuthFail? then 10.0 else 1.0;
            RecordOf(decayRate, Burst(signal, n, at)) == ScoreRecord(n as real * each, at)
  {
    hide RecordOf, Burst, Added;
    BurstAdds(decayRate, signal, n, at);
    AddedIsProduct(n, WeightOf(signal));
  }

  lemma {:induction false} BurstAdds(decayRate: real, signal: Signal, n: nat, at: int)
    requires n >= 1 && WeightOf(signal) >= 0.0
    ensures |Burst(signal, n, at)| == n
    ensures RecordOf(decayRate, Burst(signal, n, at)) == ScoreRecord(Added(n, WeightOf(signal)), at)
    ensures Added(n, WeightOf(signal)) >= 0.0
    decreases n
  {
    hide DecayOver, Bumped, WeightOf;
    var each := WeightOf(signal);
    if n > 1 {
      BurstAdds(decayRate, signal, n - 1, at);
      OneMoreHit(decayRate, Burst(signal, n - 1, at), Hit(each, at));
      SameMoment(decayRate, Added(n - 1, each), at, each);
    } else {
      assert Burst(signal, 0, at) == [] && Added(0, each) == 0.0;
      assert Burst(signal, 1, at) == [Hit(each, at)];
      SameMoment(decayRate, 0.0, at, each);
    }
  }

  lemma {:induction false} AddedIsProduct(n: nat, each: real)
    ensures Added(n, each) == n as real * each
    decreases n
  {
    if n > 0 {
      AddedIsProduct(n - 1, each);
      assert n as real == (n - 1) as real + 1.0;
    }
  }

  lemma {:induction false} SameMoment(decayRate: real, score: real, at: int, weight: real)
    requires score >= 0.0
    ensures Bumped(decayRate, ScoreRecord(score, at), Hit(weight, at)) == ScoreRecord(score + weight, at)
  {
    hide DecayOver;
    NoDecay(decayRate);
  }

  /** Some stretch of the history that ends now weighs at least the limit plus the decay over its length. */
  ghost predicate Abusive(config: Config, hits: seq<Hit>) {
    exists i :: 0 <= i < |hits| && Carried(config.decayRate, hits, i) >= config.penaltyScoreLimit
  }

  lemma {:induction false} FlaggedIffAbusive(config: Config, hits: seq<Hit>)
    requires hits != []
    ensures RecordOf(config.decayRate, hits).score >= config.penaltyScoreLimit <==> Abusive(config, hits)
  {
    hide Carried, RecordOf;
    ScoreIsBestWindow(config.decayRate, hits);
    var best :| 0 <= best < |hits| && Carried(config.decayRate, hits, best) == RecordOf(config.decayRate, hits).score;
  }

  // --- the answers of a monitor ---

  /** The records seen recently enough, and those still to be looked at. */
  function Kept(scores: map<string, ScoreRecord>, todo: set<string>, now: int, ttl: int): map<string, ScoreRecord> {
    map id | id in scores && (id in todo || now - scores[id].lastSeen <= ttl) :: scores[id]
  }

  /** The scores after a signal, and whether it is flagged: a full map takes no new actor and does not flag it. */
  function Recorded(config: Config, scores: map<string, ScoreRecord>, actor: string, hit: Hit): (map<string, ScoreRecord>, bool) {
    if actor !in scores && |scores| >= config.maxEntries then (scores, false)
    else
      var after := Bumped(config.decayRate, if actor in scores then scores[actor] else ScoreRecord(0.0, hit.at), hit);
      (scores[actor := after], after.score >= config.penaltyScoreLimit)
  }

  datatype Op = Signalled(actor: string, weight: real, at: int) | CleanedUp(at: int)

  /** What the monitor answers to the signals of a run, cleanups among them. */
  function Answers(config: Config, scores: map<string, ScoreRecord>, run: seq<Op>): seq<bool>
    decreases |run|
  {
    if run == [] then []
    else
      match run[0]
      case Signalled(actor, weight, at) =>
        var (after, flagged) := Recorded(config, scores, actor, Hit(weight, at));
        [flagged] + Answers(config, after, run[1..])
      case CleanedUp(at) => Answers(config, Kept(scores, {}, at, config.cleanupTtlMs), run[1..])
  }

  function ActorsOf(run: seq<Op>): set<string> {
    if run == [] then {} else (if run[0].Signalled? then {run[0].actor} else {}) + ActorsOf(run[1..])
  }

  /** A run from this moment on: the clock does not go back. */
  predicate Later(now: int, run: seq<Op>)
    decreases |run|
  {
    run == [] || (run[0].at >= now && Later(run[0].at, run[1..]))
  }

  predicate WeighAtLeast(least: real, run: seq<Op>) {
    forall i :: 0 <= i < |run| && run[i].Signalled? ==> run[i].weight >= least
  }

  // --- dropping records ---

  /** No later run with at most so many actors that the monitor does not track, and with weights of at least
      `least`, gets another answer from a monitor without the dropped records. */
  ghost predicate DropInvisible(config: Config, scores: map<string, ScoreRecord>, dropped: set<string>, now: int,
                                newcomers: nat, least: real) {
    forall run: seq<Op> :: Later(now, run) && WeighAtLeast(least, run) && |ActorsOf(run) - scores.Keys| <= newcomers ==>
      Answers(config, scores, run) == Answers(config, scores - dropped, run)
  }

  predicate Decayed(config: Config, record: ScoreRecord, now: int) {
    record.score <= DecayOver(config.decayRate, now - record.lastSeen)
  }

  lemma {:induction false} DecayGrows(decayRate: real, a: int, b: int)
    requires decayRate >= 0.0 && a <= b
    ensures DecayOver(decayRate, a) <= DecayOver(decayRate, b)
  {
    DecayAdds(decayRate, a, b - a);
    assert ((b - a) as real) / 1000.0 >= 0.0;
  }

  lemma {:induction false} StaysDecayed(config: Config, record: ScoreRecord, now: int, at: int)
    requires config.decayRate >= 0.0 && Decayed(config, record, now) && now <= at
    ensures Decayed(config, record, at)
  {
    DecayGrows(config.decayRate, now - record.lastSeen, at - record.lastSeen);
  }

  /** Once the score has decayed to nothing, the next hit finds the record as good as none. */
  lemma {:induction false} DecayedAway(config: Config, record: ScoreRecord, hit: Hit)
    requires Decayed(config, record, hit.at)
    ensures Bumped(config.decayRate, record, hit) == Bumped(config.decayRate, ScoreRecord(0.0, hit.at), hit)
  {
    NoDecay(config.decayRate);
  }

  /** One map holds what the other holds, but for records that have decayed to nothing. */
  ghost predicate Alike(config: Config, scores: map<string, ScoreRecord>, fewer: map<string, ScoreRecord>, now: int) {
    && fewer.Keys <= scores.Keys
    && (forall id :: id in fewer ==> fewer[id] == scores[id])
    && (forall id :: id in scores && id !in fewer ==> Decayed(config, scores[id], now))
  }

  lemma {:induction false} RoomFor(scores: map<string, ScoreRecord>, everyone: set<string>, actor: string)
    requires scores.Keys <= everyone && actor in everyone && actor !in scores
    ensures |scores| < |everyone|
  {
    SubsetSize(scores.Keys, everyone - {actor});
    assert |scores| == |scores.Keys| && |everyone - {actor}| == |everyone| - 1;
  }

  /** With room for everyone, both maps take the signal and answer alike. */
  lemma {:induction false} SignalAlike(config: Config, scores: map<string, ScoreRecord>, fewer: map<string, ScoreRecord>, now: int,
                                       everyone: set<string>, actor: string, hit: Hit)
    requires config.decayRate >= 0.0 && Alike(config, scores, fewer, now) && now <= hit.at
    requires scores.Keys <= everyone && actor in everyone && |everyone| <= config.maxEntries
    ensures var (after, flagged) := Recorded(config, scores, actor, hit);
            var (after', flagged') := Recorded(config, fewer, actor, hit);
            flagged == flagged' && Alike(config, after, after', hit.at) && after.Keys <= everyone
  {
    hide Decayed, Bumped;
    if actor !in scores {
      RoomFor(scores, everyone, actor);
    }
    if actor !in fewer {
      RoomFor(fewer, everyone, actor);
    }
    forall id | id in scores && id !in fewer ensures Decayed(config, scores[id], hit.at) {
      StaysDecayed(config, scores[id], now, hit.at);
    }
    if actor in scores && actor !in fewer {
      DecayedAway(config, scores[actor], hit);
    }
  }

  lemma {:induction false} CleanupAlike(config: Config, scores: map<string, ScoreRecord>, fewer: map<string, ScoreRecord>, now: int, at: int)
    requires config.decayRate >= 0.0 && Alike(config, scores, fewer, now) && now <= at
    ensures Alike(config, Kept(scores, {}, at, config.cleanupTtlMs), Kept(fewer, {}, at, config.cleanupTtlMs), at)
  {
    hide Decayed;
    forall id | id in scores && id !in fewer ensures Decayed(config, scores[id], at) {
      StaysDecayed(config, scores[id], now, at);
    }
  }

  lemma {:induction false} AlikeAnswers(config: Config, scores: map<string, ScoreRecord>, fewer: map<string, ScoreRecord>, now: int,
                                        everyone: set<string>, run: seq<Op>)
    requires config.decayRate >= 0.0 && Alike(config, scores, fewer, now) && Later(now, run)
    requires scores.Keys <= everyone && ActorsOf(run) <= everyone && |everyone| <= config.maxEntries
    ensures Answers(config, scores, run) == Answers(config, fewer, run)
    decreases |run|
  {
    hide Alike, Recorded, Kept;
    if run != [] {
      match run[0]
      case Signalled(actor, weight, at) =>
        var hit := Hit(weight, at);
        SignalAlike(config, scores, fewer, now, everyone, actor, hit);
        AlikeAnswers(config, Recorded(config, scores, actor, hit).0, Recorded(config, fewer, actor, hit).0, at, everyone, run[1..]);
      case CleanedUp(at) =>
        CleanupAlike(config, scores, fewer, now, at);
        KeptKeys(scores, at, config.cleanupTtlMs);
        AlikeAnswers(config, Kept(scores, {}, at, config.cleanupTtlMs), Kept(fewer, {}, at, config.cleanupTtlMs), at, everyone, run[1..]);
    }
  }

  lemma {:induction false} KeptKeys(scores: map<string, ScoreRecord>, now: int, ttl: int)
    ensures Kept(scores, {}, now, ttl).Keys <= scores.Keys
  {
  }

  // --- runs that tell ---

  lemma {:induction false} OneAnswer(config: Config, scores: map<string, ScoreRecord>, actor: string, weight: real, at: int)
    ensures var run := [Signalled(actor, weight, at)];
            && Answers(config, scores, run) == [Recorded(config, scores, actor, Hit(weight, at)).1]
            && Later(at, run) && ActorsOf(run) == {actor}
  {
    hide Recorded;
    var run := [Signalled(actor, weight, at)];
    assert run[1..] == [];
    assert Answers(config, Recorded(config, scores, actor, Hit(weight, at)).0, []) == [];
  }

  /** A new actor that finds a slot scores the weight of its first signal. */
  lemma {:induction false} FirstHit(config: Config, scores: map<string, ScoreRecord>, actor: string, hit: Hit)
    requires actor !in scores && |scores| < config.maxEntries
    ensures Recorded(config, scores, actor, hit)
         == (scores[actor := ScoreRecord(hit.weight, hit.at)], hit.weight >= config.penaltyScoreLimit)
  {
    hide DecayOver;
    NoDecay(config.decayRate);
  }

  lemma {:induction false} NoSlot(config: Config, scores: map<string, ScoreRecord>, actor: string, hit: Hit)
    requires actor !in scores && |scores| >= config.maxEntries
    ensures Recorded(config, scores, actor, hit) == (scores, false)
  {
  }

  lemma {:induction false} NextHit(config: Config, scores: map<string, ScoreRecord>, actor: string, hit: Hit, left: real)
    requires actor in scores && left == scores[actor].score - DecayOver(config.decayRate, hit.at - scores[actor].lastSeen)
    ensures Recorded(config, scores, actor, hit).1 <==> MaxReal(0.0, left) + hit.weight >= config.penaltyScoreLimit
  {
    hide DecayOver;
  }

  lemma {:induction false} FewerAfterDrop(scores: map<string, ScoreRecord>, fewer: map<string, ScoreRecord>)
    requires fewer.Keys < scores.Keys
    ensures |fewer| < |scores|
  {
    var id :| id in scores.Keys && id !in fewer.Keys;
    RoomFor(fewer, scores.Keys, id);
    assert |scores| == |scores.Keys|;
  }

  /** A dropped score that has not decayed: a signal that lifts it to the limit is flagged only with it. */
  lemma {:induction false} ScoreTells(config: Config, scores: map<string, ScoreRecord>, fewer: map<string, ScoreRecord>, id: string,
                                      now: int, least: real)
    returns (run: seq<Op>)
    requires least < config.penaltyScoreLimit && |fewer| < config.maxEntries
    requires id in scores && id !in fewer && !Decayed(config, scores[id], now)
    ensures Later(now, run) && WeighAtLeast(least, run) && ActorsOf(run) == {id}
    ensures Answers(config, scores, run) != Answers(config, fewer, run)
  {
    hide DecayOver, Recorded, Answers, ActorsOf, Later;
    var left := scores[id].score - DecayOver(config.decayRate, now - scores[id].lastSeen);
    var weight := MaxReal(least, config.penaltyScoreLimit - left);
    run := [Signalled(id, weight, now)];
    NextHit(config, scores, id, Hit(weight, now), left);
    FirstHit(config, fewer, id, Hit(weight, now));
    OneAnswer(config, scores, id, weight, now);
    OneAnswer(config, fewer, id, weight, now);
  }

  lemma {:induction false} LongestId(ids: set<string>) returns (n: nat)
    ensures forall id :: id in ids ==> |id| <= n
    decreases ids
  {
    if ids == {} {
      n := 0;
    } else {
      var id :| id in ids;
      n := LongestId(ids - {id});
      n := if |id| > n then |id| else n;
    }
  }

  lemma {:induction false} Newcomer(ids: set<string>) returns (actor: string)
    ensures actor !in ids
  {
    var n := LongestId(ids);
    actor := seq(n + 1, _ => 'x');
  }

  /** A full map and one with a slot left: a newcomer's signal of the limit's weight is flagged only by the latter. */
  lemma {:induction false} FullTells(config: Config, scores: map<string, ScoreRecord>, fewer: map<string, ScoreRecord>, actor: string, now: int)
    requires actor !in scores && actor !in fewer && |fewer| < config.maxEntries <= |scores|
    ensures var run := [Signalled(actor, config.penaltyScoreLimit, now)];
            && Later(now, run) && ActorsOf(run) == {actor}
            && Answers(config, scores, run) != Answers(config, fewer, run)
  {
    hide Recorded, Answers, ActorsOf, Later;
    var limit := config.penaltyScoreLimit;
    OneAnswer(config, scores, actor, limit, now);
    OneAnswer(config, fewer, actor, limit, now);
    NoSlot(config, scores, actor, Hit(limit, now));
    FirstHit(config, fewer, actor, Hit(limit, now));
  }

  lemma {:induction false} BothGrow(scores: map<string, ScoreRecord>, fewer: map<string, ScoreRecord>, actor: string, record: ScoreRecord)
    requires fewer.Keys < scores.Keys && actor !in scores
    ensures fewer[actor := record].Keys < scores[actor := record].Keys
    ensures scores[actor := record].Keys == scores.Keys + {actor}
    ensures |scores[actor := record]| == |scores| + 1
  {
    assert scores[actor := record].Keys == scores.Keys + {actor} && fewer[actor := record].Keys == fewer.Keys + {actor};
    assert |scores[actor := record]| == |scores[actor := record].Keys| && |scores| == |scores.Keys|;
    var id :| id in scores.Keys && id !in fewer.Keys;
    assert id !in fewer[actor := record].Keys;
  }

  /** A freed slot: newcomers fill the map that kept the records, and the next one is flagged only by the
      monitor that has a slot left. */
  lemma {:induction false} SlotTells(config: Config, scores: map<string, ScoreRecord>, fewer: map<string, ScoreRecord>, now: int, least: real,
                                     room: nat)
    returns (run: seq<Op>)
    requires least < config.penaltyScoreLimit && fewer.Keys < scores.Keys && |scores| + room == config.maxEntries
    ensures Later(now, run) && WeighAtLeast(least, run) && |ActorsOf(run) - scores.Keys| <= room + 1
    ensures Answers(config, scores, run) != Answers(config, fewer, run)
    decreases room
  {
    hide Recorded, ActorsOf, Answers, Later;
    var actor := Newcomer(scores.Keys);
    FewerAfterDrop(scores, fewer);
    if room == 0 {
      run := [Signalled(actor, config.penaltyScoreLimit, now)];
      FullTells(config, scores, fewer, actor, now);
      assert {actor} - scores.Keys == {actor};
    } else {
      var record := ScoreRecord(least, now);
      BothGrow(scores, fewer, actor, record);
      var rest := SlotTells(config, scores[actor := record], fewer[actor := record], now, least, room - 1);
      run := [Signalled(actor, least, now)] + rest;
      NewcomerInFront(config, scores, fewer, actor, least, now, rest);
      OneMoreNewcomer(scores.Keys, scores[actor := record].Keys, actor, ActorsOf(rest), room);
    }
  }

  lemma {:induction false} NewcomerInFront(config: Config, scores: map<string, ScoreRecord>, fewer: map<string, ScoreRecord>, actor: string,
                                           weight: real, now: int, rest: seq<Op>)
    requires actor !in scores && actor !in fewer && |fewer| < config.maxEntries && |scores| < config.maxEntries && Later(now, rest)
    requires var record := ScoreRecord(weight, now);
             Answers(config, scores[actor := record], rest) != Answers(config, fewer[actor := record], rest)
    ensures var run := [Signalled(actor, weight, now)] + rest;
            && Answers(config, scores, run) != Answers(config, fewer, run)
            && Later(now, run) && ActorsOf(run) == {actor} + ActorsOf(rest)
  {
    hide Recorded, ActorsOf, Answers, Later;
    FirstHit(config, scores, actor, Hit(weight, now));
    FirstHit(config, fewer, actor, Hit(weight, now));
    InFront(config, scores, actor, weight, now, rest);
    InFront(config, fewer, actor, weight, now, rest);
    var run := [Signalled(actor, weight, now)] + rest;
    assert Answers(config, scores, run)[1..] == Answers(config, scores[actor := ScoreRecord(weight, now)], rest);
    assert Answers(config, fewer, run)[1..] == Answers(config, fewer[actor := ScoreRecord(weight, now)], rest);
  }

  lemma {:induction false} InFront(config: Config, scores: map<string, ScoreRecord>, actor: string, weight: real, at: int, rest: seq<Op>)
    requires Later(at, rest)
    ensures var run := [Signalled(actor, weight, at)] + rest;
            var (after, flagged) := Recorded(config, scores, actor, Hit(weight, at));
            && Answers(config, scores, run) == [flagged] + Answers(config, after, rest)
            && Later(at, run) && ActorsOf(run) == {actor} + ActorsOf(rest)
  {
    hide Recorded;
    assert ([Signalled(actor, weight, at)] + rest)[1..] == rest;
  }

  lemma {:induction false} OneMoreNewcomer(tracked: set<string>, after: set<string>, actor: string, actors: set<string>, room: nat)
    requires after == tracked + {actor} && |actors - after| <= room
    ensures |({actor} + actors) - tracked| <= room + 1
  {
    var others := actors - after;
    SubsetSize(({actor} + actors) - tracked, {actor} + others);
    assert |{actor} + others| == 1 + |others|;
  }

  // --- exactly when a drop is invisible ---

  /** Dropping records is invisible to every later run with so many newcomers if and only if nothing is
      dropped, or the map has room for all of them beside the dropped records and every dropped score has
      decayed to nothing. A run may hold later cleanups, and any weights from some bound below the limit on. */
  lemma {:induction false} DropInvisibleIff(config: Config, scores: map<string, ScoreRecord>, dropped: set<string>, now: int,
                                            newcomers: nat, least: real)
    requires config.decayRate >= 0.0 && least < config.penaltyScoreLimit
    requires dropped <= scores.Keys && |scores| <= config.maxEntries
    ensures DropInvisible(config, scores, dropped, now, newcomers, least)
            <==> dropped == {} || (|scores| + newcomers <= config.maxEntries
                                   && forall id :: id in dropped ==> Decayed(config, scores[id], now))
  {
    hide Answers, Later, WeighAtLeast, ActorsOf, Decayed;
    if dropped == {} {
      assert scores - dropped == scores;
    } else if id :| id in dropped && !Decayed(config, scores[id], now) {
      FewerAfterDrop(scores, scores - dropped);
      var run := ScoreTells(config, scores, scores - dropped, id, now, least);
      assert ActorsOf(run) - scores.Keys == {};
    } else if |scores| + newcomers > config.maxEntries {
      var id :| id in dropped;
      var run := SlotTells(config, scores, scores - dropped, now, least, config.maxEntries - |scores|);
    } else {
      forall run: seq<Op> | Later(now, run) && WeighAtLeast(least, run) && |ActorsOf(run) - scores.Keys| <= newcomers
        ensures Answers(config, scores, run) == Answers(config, scores - dropped, run)
      {
        var everyone := scores.Keys + (ActorsOf(run) - scores.Keys);
        assert |everyone| == |scores.Keys| + |ActorsOf(run) - scores.Keys| && |scores| == |scores.Keys|;
        AlikeAnswers(config, scores, scores - dropped, now, everyone, run);
      }
    }
  }

  /** So without a bound on the newcomers every drop shows in some later run. */
  lemma {:induction false} EveryDropVisible(config: Config, scores: map<string, ScoreRecord>, dropped: set<string>, now: int, least: real)
    requires config.decayRate >= 0.0 && least < config.penaltyScoreLimit
    requires dropped <= scores.Keys && |scores| <= config.maxEntries
    ensures (forall newcomers: nat :: DropInvisible(config, scores, dropped, now, newcomers, least)) <==> dropped == {}
  {
    hide DropInvisible, Decayed;
    forall newcomers: nat
      ensures DropInvisible(config, scores, dropped, now, newcomers, least)
              <==> dropped == {} || (|scores| + newcomers <= config.maxEntries
                                     && forall id :: id in dropped ==> Decayed(config, scores[id], now))
    {
      DropInvisibleIff(config, scores, dropped, now, newcomers, least);
    }
    assert DropInvisible(config, scores, dropped, now, config.maxEntries + 1, least) ==> dropped == {};
  }

  /** What a cleanup drops. */
  function Stale(config: Config, scores: map<string, ScoreRecord>, now: int): set<string> {
    set id | id in scores && now - scores[id].lastSeen > config.cleanupTtlMs
  }

  /** A cleanup is invisible to every later run with so many newcomers if and only if nothing is stale, or
      there is room for all of them beside the stale records and every stale score has decayed to nothing. */
  lemma {:induction false} CleanupInvisibleIff(config: Config, scores: map<string, ScoreRecord>, now: int, newcomers: nat, least: real)
    requires config.decayRate >= 0.0 && least < config.penaltyScoreLimit && |scores| <= config.maxEntries
    ensures Kept(scores, {}, now, config.cleanupTtlMs) == scores - Stale(config, scores, now)
    ensures DropInvisible(config, scores, Stale(config, scores, now), now, newcomers, least)
            <==> Stale(config, scores, now) == {}
                 || (|scores| + newcomers <= config.maxEntries
                     && forall id :: id in Stale(config, scores, now) ==> Decayed(config, scores[id], now))
  {
    hide DropInvisible, Decayed;
    DropInvisibleIff(config, scores, Stale(config, scores, now), now, newcomers, least);
  }

  /** Room matters to the dropped actor too: with one slot, the newcomer that takes the slot of a dropped
      record keeps its actor out, whose next heavy signal the kept record would have flagged. */
  lemma {:induction false} SlotTaken(config: Config, a: string, b: string, record: ScoreRecord, now: int)
    requires config.decayRate >= 0.0 && config.maxEntries == 1 && config.penaltyScoreLimit > 0.0 && a != b
    requires Decayed(config, record, now)
    ensures var limit := config.penaltyScoreLimit;
            var run := [Signalled(b, 0.0, now), Signalled(a, limit, now)];
            && Answers(config, map[a := record], [Signalled(b, limit, now)]) == [false]
            && Answers(config, map[], [Signalled(b, limit, now)]) == [true]
            && Answers(config, map[a := record], run) == [false, true]
            && Answers(config, map[], run) == [false, false]
  {
    hide DecayOver, Answers, Recorded;
    var limit := config.penaltyScoreLimit;
    var kept := map[a := record];
    var taken := map[b := ScoreRecord(0.0, now)];
    NoSlot(config, kept, b, Hit(limit, now));
    NoSlot(config, kept, b, Hit(0.0, now));
    NextHit(config, kept, a, Hit(limit, now), record.score - DecayOver(config.decayRate, now - record.lastSeen));
    FirstHit(config, map[], b, Hit(limit, now));
    FirstHit(config, map[], b, Hit(0.0, now));
    NoSlot(config, taken, a, Hit(limit, now));
    OneAnswer(config, kept, b, limit, now);
    OneAnswer(config, map[], b, limit, now);
    InFront(config, kept, b, 0.0, now, [Signalled(a, limit, now)]);
    InFront(config, map[], b, 0.0, now, [Signalled(a, limit, now)]);
    OneAnswer(config, kept, a, limit, now);
    OneAnswer(config, taken, a, limit, now);
    assert [Signalled(b, 0.0, now)] + [Signalled(a, limit, now)] == [Signalled(b, 0.0, now), Signalled(a, limit, now)];
  }

  const DEFAULTS := Config(100.0, 0.1, 10_000, 3_600_000)

  /** With the default settings: while the map has room for the newcomers beside the record, a cleanup can be
      visible exactly if the score is above 360.0001, which is what decays in the shortest time after which a
      record is dropped; without that room every drop is visible, however small the score. */
  lemma {:induction false} DefaultDropVisible(scores: map<string, ScoreRecord>, id: string, newcomers: nat)
    requires id in scores && |scores| <= DEFAULTS.maxEntries
    ensures |scores| + newcomers <= DEFAULTS.maxEntries ==>
              ((exists now :: now - scores[id].lastSeen > DEFAULTS.cleanupTtlMs
                              && !DropInvisible(DEFAULTS, scores, {id}, now, newcomers, 0.0))
               <==> scores[id].score > 360.0001)
    ensures |scores| + newcomers > DEFAULTS.maxEntries ==>
              forall now :: !DropInvisible(DEFAULTS, scores, {id}, now, newcomers, 0.0)
  {
    hide DropInvisible;
    var record := scores[id];
    var soonest := record.lastSeen + 3_600_001;
    assert DecayOver(0.1, 3_600_001) == 360.0001;
    forall now
      ensures DropInvisible(DEFAULTS, scores, {id}, now, newcomers, 0.0)
              <==> |scores| + newcomers <= DEFAULTS.maxEntries && Decayed(DEFAULTS, record, now)
    {
      DropInvisibleIff(DEFAULTS, scores, {id}, now, newcomers, 0.0);
    }
    if record.score > 360.0001 {
      assert soonest - record.lastSeen > DEFAULTS.cleanupTtlMs && !Decayed(DEFAULTS, record, soonest);
    }
    forall now | now - record.lastSeen > DEFAULTS.cleanupTtlMs && !Decayed(DEFAULTS, record, now) ensures record.score > 360.0001 {
      DecayGrows(0.1, 3_600_001, now - record.lastSeen);
    }
  }

  // --- the monitor ---

  function CountOf(flagged: seq<Category>, category: Category): nat {
    if flagged == [] then 0
    else CountOf(flagged[..|flagged| - 1], category) + (if flagged[|flagged| - 1] == category then 1 else 0)
  }

  class AbuseMonitor {
    var scores: map<string, ScoreRecord>
    var categoryCounts: map<Category, nat>
    const config: Config

    /** The hits of each tracked actor since its record was made, and the categories of flagged signals. */
    ghost var history: map<string, seq<Hit>>
    ghost var flagged: seq<Category>

    ghost predicate Valid()
      reads this
    {
      && history.Keys == scores.Keys && |scores| <= config.maxEntries
      && (forall id :: id in scores ==> history[id] != [] && scores[id] == RecordOf(config.decayRate, history[id]))
      && (forall c :: c in categoryCounts <==> CountOf(flagged, c) > 0)
      && (forall c :: c in categoryCounts ==> categoryCounts[c] == CountOf(flagged, c))
    }

    constructor (config: Config)
      ensures Valid() && scores == map[] && flagged == [] && this.config == config
    {
      this.config := config;
      scores, categoryCounts, history, flagged := map[], map[], map[], [];
    }

    ghost function HistoryOf(id: string): seq<Hit>
      reads this
    {
      if id in history then history[id] else []
    }

    /** An actor that finds the map full is never flagged and not remembered; any other is flagged exactly
        when its history is abusive. */
    method Record(signal: Signal, now: int) returns (abusive: bool)
      requires Valid()
      modifies this
      ensures Valid()
      ensures var id := signal.actor;
              var untracked := id !in old(scores) && |old(scores)| >= config.maxEntries;
              var hits := old(HistoryOf(id)) + [Hit(WeightOf(signal), now)];
              && history == (if untracked then old(history) else old(history)[id := hits])
              && (abusive <==> !untracked && Abusive(config, hits))
              && flagged == old(flagged) + (if abusive then [CategoryOf(signal)] else [])
      ensures (scores, abusive) == Recorded(config, old(scores), signal.actor, Hit(WeightOf(signal), now))
    {
      hide CountOf, Abusive, RecordOf;
      assert flagged + [] == flagged;
      if signal.actor !in scores && |scores| >= config.maxEntries {
        return false;
      }
      var currentScore := AddHit(signal.actor, WeightOf(signal), now);
      abusive := currentScore >= config.penaltyScoreLimit;
      if abusive {
        EmitAbuseEvent(signal);
      }
    }

    method AddHit(id: string, weight: real, now: int) returns (currentScore: real)
      requires Valid() && (id in scores || |scores| < config.maxEntries)
      modifies this`scores, this`history
      ensures Valid()
      ensures history == old(history)[id := old(HistoryOf(id)) + [Hit(weight, now)]]
      ensures currentScore >= config.penaltyScoreLimit <==> Abusive(config, old(HistoryOf(id)) + [Hit(weight, now)])
      ensures scores == old(scores)[id := ScoreRecord(currentScore, now)]
      ensures ScoreRecord(currentScore, now)
           == Bumped(config.decayRate, if id in old(scores) then old(scores)[id] else ScoreRecord(0.0, now), Hit(weight, now))
    {
      hide CountOf, Abusive, DecayOver, RecordOf;
      var record := if id in scores then scores[id] else ScoreRecord(0.0, now);
      var elapsed := now - record.lastSeen;
      currentScore := MaxReal(0.0, record.score - DecayOver(config.decayRate, elapsed)) + weight;
      ghost var hits := HistoryOf(id) + [Hit(weight, now)];
      Remembered(id, Hit(weight, now));
      FlaggedIffAbusive(config, hits);
      WithHits(id, hits);
      scores := scores[id := ScoreRecord(currentScore, now)];
      history := history[id := hits];
    }

    lemma {:induction false} WithHits(id: string, hits: seq<Hit>)
      requires Valid() && hits != [] && (id in scores || |scores| < config.maxEntries)
      ensures var after := scores[id := RecordOf(config.decayRate, hits)];
              var remembered := history[id := hits];
              && remembered.Keys == after.Keys && |after| <= config.maxEntries
              && (forall other :: other in after ==>
                    remembered[other] != [] && after[other] == RecordOf(config.decayRate, remembered[other]))
    {
      hide RecordOf, CountOf;
      SizeAfter(scores, id, RecordOf(config.decayRate, hits));
    }

    lemma {:induction false} Remembered(id: string, hit: Hit)
      requires Valid()
      ensures RecordOf(config.decayRate, HistoryOf(id) + [hit])
           == Bumped(config.decayRate, if id in scores then scores[id] else ScoreRecord(0.0, hit.at), hit)
    {
      if id in scores {
        OneMoreHit(config.decayRate, history[id], hit);
      } else {
        assert [] + [hit] == [hit];
      }
    }

    static lemma {:induction false} SizeAfter(scores: map<string, ScoreRecord>, id: string, record: ScoreRecord)
      ensures |scores[id := record]| == if id in scores then |scores| else |scores| + 1
    {
      assert scores[id := record].Keys == scores.Keys + {id};
      assert |scores[id := record]| == |scores[id := record].Keys|;
      assert |scores| == |scores.Keys|;
    }

    method EmitAbuseEvent(signal: Signal)
      requires forall c :: c in categoryCounts <==> CountOf(flagged, c) > 0
      requires forall c :: c in categoryCounts ==> categoryCounts[c] == CountOf(flagged, c)
      modifies this`categoryCounts, this`flagged
      ensures flagged == old(flagged) + [CategoryOf(signal)]
      ensures |flagged| == |old(flagged)| + 1
      ensures var c := flagged[|flagged| - 1];
              && (signal.category.Some? ==> c == signal.category.value)
              && (signal.category.None? ==>
                    (c == BruteForce <==> signal.signalType == AuthFail) && (c == PayloadAnomaly <==> signal.signalType == InvalidXdr)
                    && c != Enumeration)
      ensures forall c :: c in categoryCounts <==> CountOf(flagged, c) > 0
      ensures forall c :: c in categoryCounts ==> categoryCounts[c] == CountOf(flagged, c)
    {
      var category := CategoryOf(signal);
      var count := if category in categoryCounts then categoryCounts[category] else 0;
      categoryCounts := categoryCounts[category := count + 1];
      assert (flagged + [category])[..|flagged|] == flagged;
      flagged := flagged + [category];
    }

    /** Drops exactly the records not seen for longer than the time to live; the others keep their history. */
    method Cleanup(now: int)
      requires Valid()
      modifies this`scores, this`history
      ensures Valid()
      ensures scores == Kept(old(scores), {}, now, config.cleanupTtlMs)
      ensures history == map id | id in old(history) && id in scores :: old(history)[id]
    {
      hide CountOf, RecordOf;
      var todo := scores.Keys;
      while todo != {}
        invariant todo <= old(scores).Keys && history == old(history)
        invariant scores == Kept(old(scores), todo, now, config.cleanupTtlMs)
        decreases |todo|
      {
        var id :| id in todo;
        if now - scores[id].lastSeen > config.cleanupTtlMs {
          scores := scores - {id};
        }
        todo := todo - {id};
      }
      FewerKeys(old(scores), scores);
      history := map id | id in history && id in scores :: history[id];
    }

    static lemma {:induction false} FewerKeys(before: map<string, ScoreRecord>, after: map<string, ScoreRecord>)
      requires after.Keys <= before.Keys
      ensures |after| <= |before|
    {
      SubsetSize(after.Keys, before.Keys);
      assert |after| == |after.Keys| && |before| == |before.Keys|;
    }

    method Reset()
      modifies this
      ensures Valid() && scores == map[] && categoryCounts == map[] && history == map[] && flagged == []
    {
      scores, categoryCounts, history, flagged := map[], map[], map[], [];
    }
  }
}

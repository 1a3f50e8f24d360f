/** The names of the queues actors share. */
module QueueNames {
  import opened Addresses

  function QueuePath(dataType: string, source: string, target: string): string {
    dataType + "/" + source + "/" + target
  }

  function BroadcastQueue(dataType: string, source: string): string {
    QueuePath(dataType, source, "public")
  }

  function ActionQueue(strategyId: string, tradeGatewayId: string): string {
    QueuePath("action", strategyId, tradeGatewayId)
  }

  lemma QueuePathSegments(dataType: string, source: string, target: string)
    ensures Split(QueuePath(dataType, source, target)) == Split(dataType) + Split(source) + Split(target)
  {
    SplitAtSlash(dataType + "/" + source, target);
    SplitAtSlash(dataType, source);
  }

  /** On components without slashes the queue path determines its components. */
  lemma QueuePathIsInjective(d1: string, s1: string, t1: string, d2: string, s2: string, t2: string)
    requires SlashFree(d1) && SlashFree(s1) && SlashFree(t1) && SlashFree(d2) && SlashFree(s2) && SlashFree(t2)
    requires QueuePath(d1, s1, t1) == QueuePath(d2, s2, t2)
    ensures d1 == d2 && s1 == s2 && t1 == t2
  {
    QueuePathSegments(d1, s1, t1);
    QueuePathSegments(d2, s2, t2);
    SplitOfSlashFree(d1);
    SplitOfSlashFree(s1);
    SplitOfSlashFree(t1);
    SplitOfSlashFree(d2);
    SplitOfSlashFree(s2);
    SplitOfSlashFree(t2);
    assert ([d1] + [s1] + [t1])[0] == d1 && ([d1] + [s1] + [t1])[1] == s1 && ([d1] + [s1] + [t1])[2] == t1;
    assert ([d2] + [s2] + [t2])[0] == d2 && ([d2] + [s2] + [t2])[1] == s2 && ([d2] + [s2] + [t2])[2] == t2;
  }

  /** Distinct (strategy, gateway) pairs never share an action queue, nor does an action
      queue double as a broadcast queue of another data type. */
  lemma ActionQueuesAreDisjoint(strategy1: string, gateway1: string, strategy2: string, gateway2: string,
                                dataType: string, source: string)
    requires SlashFree(strategy1) && SlashFree(gateway1) && SlashFree(strategy2) && SlashFree(gateway2)
    requires SlashFree(dataType) && SlashFree(source)
    ensures ActionQueue(strategy1, gateway1) == ActionQueue(strategy2, gateway2)
       <==> strategy1 == strategy2 && gateway1 == gateway2
    ensures ActionQueue(strategy1, gateway1) == BroadcastQueue(dataType, source)
       <==> dataType == "action" && source == strategy1 && gateway1 == "public"
  {
    if ActionQueue(strategy1, gateway1) == ActionQueue(strategy2, gateway2) {
      QueuePathIsInjective("action", strategy1, gateway1, "action", strategy2, gateway2);
    }
    if ActionQueue(strategy1, gateway1) == BroadcastQueue(dataType, source) {
      QueuePathIsInjective("action", strategy1, gateway1, dataType, source, "public");
    }
  }

  /** Slashes inside components break this: two different pairs, one queue. */
  lemma SlashesCollide(a: string, b: string, c: string)
    ensures ActionQueue(a + "/" + b, c) == ActionQueue(a, b + "/" + c)
  {
    assert "action" + "/" + (a + "/" + b) + "/" + c == "action" + "/" + a + "/" + (b + "/" + c);
  }

  // ---------------------------------------------------------------------------
  // When a name determines its components

  lemma {:induction false} SplitCountsSlashes(s: string)
    ensures |Split(s)| == 1 <==> SlashFree(s)
  {
    if s != "" {
      var init, last := s[..|s| - 1], s[|s| - 1];
      assert s == init + [last];
      SplitCountsSlashes(init);
    }
  }

  /** A slash-free triple shares its path with no other triple, slashes or not. */
  lemma SlashFreeIsAlone(d1: string, s1: string, t1: string, d2: string, s2: string, t2: string)
    requires SlashFree(d1) && SlashFree(s1) && SlashFree(t1)
    requires QueuePath(d2, s2, t2) == QueuePath(d1, s1, t1)
    ensures d2 == d1 && s2 == s1 && t2 == t1
  {
    QueuePathSegments(d1, s1, t1);
    QueuePathSegments(d2, s2, t2);
    SplitCountsSlashes(d1);
    SplitCountsSlashes(s1);
    SplitCountsSlashes(t1);
    SplitCountsSlashes(d2);
    SplitCountsSlashes(s2);
    SplitCountsSlashes(t2);
    assert |Split(d2)| >= 1 && |Split(s2)| >= 1 && |Split(t2)| >= 1;
    QueuePathIsInjective(d1, s1, t1, d2, s2, t2);
  }

  /** No other triple has the path of this one. */
  ghost predicate OnlyTriple(dataType: string, source: string, target: string) {
    forall d, s, t :: QueuePath(d, s, t) == QueuePath(dataType, source, target) ==>
      d == dataType && s == source && t == target
  }

  lemma CutAtSlash(s: string) returns (a: string, b: string)
    requires !SlashFree(s)
    ensures s == a + "/" + b
  {
    var k :| 0 <= k < |s| && s[k] == '/';
    a, b := s[..k], s[k + 1..];
  }

  lemma RegroupLeft(a: string, b: string, c: string, d: string)
    ensures QueuePath(a + "/" + b, c, d) == QueuePath(a, b, c + "/" + d)
  {
    assert a + "/" + b + "/" + c + "/" + d == a + "/" + b + "/" + (c + "/" + d);
  }

  lemma RegroupRight(a: string, b: string, c: string, d: string)
    ensures QueuePath(a, b + "/" + c, d) == QueuePath(a + "/" + b, c, d)
  {
    assert a + "/" + (b + "/" + c) + "/" + d == a + "/" + b + "/" + c + "/" + d;
  }

  /** A queue path determines its components exactly if none of them has a slash. */
  lemma PathIsUniqueIff(dataType: string, source: string, target: string)
    ensures OnlyTriple(dataType, source, target) <==> SlashFree(dataType) && SlashFree(source) && SlashFree(target)
  {
    if SlashFree(dataType) && SlashFree(source) && SlashFree(target) {
      forall d, s, t | QueuePath(d, s, t) == QueuePath(dataType, source, target)
        ensures d == dataType && s == source && t == target
      {
        SlashFreeIsAlone(dataType, source, target, d, s, t);
      }
    } else if !SlashFree(dataType) {
      var a, b := CutAtSlash(dataType);
      RegroupLeft(a, b, source, target);
      assert |a| < |dataType|;
    } else if !SlashFree(source) {
      var a, b := CutAtSlash(source);
      RegroupRight(dataType, a, b, target);
      assert |b| < |source|;
    } else {
      var a, b := CutAtSlash(target);
      RegroupLeft(dataType, source, a, b);
      assert |b| < |target|;
    }
  }

  /** No other pair has the action queue of this one. */
  ghost predicate OnlyPair(strategyId: string, tradeGatewayId: string) {
    forall s, g :: ActionQueue(s, g) == ActionQueue(strategyId, tradeGatewayId) ==>
      s == strategyId && g == tradeGatewayId
  }

  /** A strategy and a gateway have their action queue to themselves exactly if neither id has
      a slash. */
  lemma ActionQueueIsUniqueIff(strategyId: string, tradeGatewayId: string)
    ensures OnlyPair(strategyId, tradeGatewayId) <==> SlashFree(strategyId) && SlashFree(tradeGatewayId)
  {
    if SlashFree(strategyId) && SlashFree(tradeGatewayId) {
      forall s, g | ActionQueue(s, g) == ActionQueue(strategyId, tradeGatewayId)
        ensures s == strategyId && g == tradeGatewayId
      {
        SlashFreeIsAlone("action", strategyId, tradeGatewayId, "action", s, g);
      }
    } else if !SlashFree(strategyId) {
      var a, b := CutAtSlash(strategyId);
      SlashesCollide(a, b, tradeGatewayId);
      assert |a| < |strategyId|;
    } else {
      var a, b := CutAtSlash(tradeGatewayId);
      SlashesCollide(strategyId, a, b);
      assert |b| < |tradeGatewayId|;
    }
  }

  /** A generated queue name is a valid address exactly when each of its components is. */
  lemma QueuePathAcceptedIff(dataType: string, source: string, target: string)
    ensures Parsed(QueuePath(dataType, source, target)).Ok?
       <==> Parsed(dataType).Ok? && Parsed(source).Ok? && Parsed(target).Ok?
  {
    QueuePathSegments(dataType, source, target);
    AcceptedIffSegmentsValid(QueuePath(dataType, source, target));
    AcceptedIffSegmentsValid(dataType);
    AcceptedIffSegmentsValid(source);
    AcceptedIffSegmentsValid(target);
    ValidOfConcat(Split(dataType) + Split(source), Split(target));
    ValidOfConcat(Split(dataType), Split(source));
  }
}

/** `FeedController`: builds every configured feed, fans each camera frame out
    to the feeds in configuration order, resets them and reports their
    feed-information records. */
module Controller {
  import opened Results
  import opened Text
  import opened FeedSpecs
  import opened Processors

  /** The parameters the controller reads: each camera's parameters by name,
      and the `feeds` block (absent, or its entries in configuration order). */
  datatype Config = Config(cameras: map<string, CameraParams>, feeds: Option<seq<(string, FeedParams)>>)

  datatype FeedController = FeedController(feeds: seq<Feed>)

  /** The feed types the controller can build. */
  predicate KnownType(feedType: string) {
    feedType == "average" || feedType == "interval" || feedType == "lastfilm" || feedType == "slice"
  }

  /** The type-specific part of a feed's construction, after `FeedNC.__init__`. */
  function PolicyFor(name: string, fp: FeedParams): (r: Result<Policy, FeedError>)
    requires fp.feedType == "average" || fp.feedType == "interval" || fp.feedType == "slice"
    ensures fp.feedType == "slice" ==> r == Ok(Slice)
    ensures fp.feedType == "average" ==>
      (r.Ok? <==> fp.framesToAverage.Some?) &&
      (r.Ok? ==> r.value == Average(fp.framesToAverage.value))
    ensures fp.feedType == "interval" ==>
      (r.Ok? <==> fp.captureFrames.Some? && ParseIntList(fp.captureFrames.value).Some? && fp.cycleLength.Some?)
    ensures fp.feedType == "interval" && r.Ok? ==>
      r.value == Interval(fp.cycleLength.value, ParseIntList(fp.captureFrames.value).value)
  {
    if fp.feedType == "slice" then Ok(Slice)
    else if fp.feedType == "average" then
      match fp.framesToAverage
      case None => Err(MissingParameter("frames_to_average", name))
      case Some(k) => Ok(Average(k))
    else
      match fp.captureFrames
      case None => Err(MissingParameter("capture_frames", name))
      case Some(text) =>
        match ParseIntList(text)
        case None => Err(BadCaptureFrames(text, name))
        case Some(capture) =>
          match fp.cycleLength
          case None => Err(MissingParameter("cycle_length", name))
          case Some(cycle) => Ok(Interval(cycle, capture))
  }

  /** One iteration of the constructor's loop: look up the source camera,
      select the class by `feed_type`, then construct it. */
  function BuildFeed(cfg: Config, name: string, fp: FeedParams): (r: Result<Feed, FeedError>)
    ensures fp.source !in cfg.cameras ==> r == Err(MissingCamera(fp.source))
    ensures fp.source in cfg.cameras && !KnownType(fp.feedType) ==>
      r == Err(UnknownFeedType(fp.feedType, name))
    ensures fp.feedType == "lastfilm" ==> r.Err?
    ensures r.Ok? ==>
      && fp.source in cfg.cameras
      && BuildSpec(fp.source, cfg.cameras[fp.source], name, fp) == Ok(r.value.spec)
      && PolicyFor(name, fp) == Ok(r.value.policy)
      && r.value.state == Initial
      && r.value.spec.xPixels % 4 == 0
      && Valid(r.value)
  {
    if fp.source !in cfg.cameras then Err(MissingCamera(fp.source))
    else if !KnownType(fp.feedType) then Err(UnknownFeedType(fp.feedType, name))
    else if fp.feedType == "lastfilm" then Err(LastFilmUndefined(name))
    else
      match BuildSpec(fp.source, cfg.cameras[fp.source], name, fp)
      case Err(e) => Err(e)
      case Ok(spec) =>
        match PolicyFor(name, fp)
        case Err(e) => Err(e)
        case Ok(policy) => Ok(Feed(spec, policy, Initial))
  }

  /** The controller's constructor: no `feeds` block gives no feeds; otherwise
      every entry is built in order and the first exception aborts the build. */
  function BuildController(cfg: Config): (r: Result<FeedController, FeedError>)
    ensures cfg.feeds.None? ==> r == Ok(FeedController([]))
    ensures cfg.feeds.Some? ==> r == BuildAll(cfg, cfg.feeds.value)
  {
    match cfg.feeds
    case None => Ok(FeedController([]))
    case Some(entries) => BuildAll(cfg, entries)
  }

  /** Builds the entries in order, stopping at the first that raises. */
  function BuildAll(cfg: Config, entries: seq<(string, FeedParams)>): (r: Result<FeedController, FeedError>)
    ensures r.Ok? <==> forall i :: 0 <= i < |entries| ==> BuildFeed(cfg, entries[i].0, entries[i].1).Ok?
    ensures r.Ok? ==>
      && |r.value.feeds| == |entries|
      && forall i :: 0 <= i < |entries| ==> Ok(r.value.feeds[i]) == BuildFeed(cfg, entries[i].0, entries[i].1)
    ensures r.Err? ==> exists i :: FirstFailure(cfg, entries, i) && Err(r.error) == BuildFeed(cfg, entries[i].0, entries[i].1)
    decreases |entries|
  {
    if |entries| == 0 then Ok(FeedController([]))
    else
      match BuildFeed(cfg, entries[0].0, entries[0].1)
      case Err(e) =>
        assert FirstFailure(cfg, entries, 0);
        Err(e)
      case Ok(feed) =>
        match BuildAll(cfg, entries[1..])
        case Err(e) =>
          assert exists i :: FirstFailure(cfg, entries, i) && Err(e) == BuildFeed(cfg, entries[i].0, entries[i].1) by {
            var i :| FirstFailure(cfg, entries[1..], i) && Err(e) == BuildFeed(cfg, entries[1..][i].0, entries[1..][i].1);
            FirstFailureShift(cfg, entries, i);
          }
          Err(e)
        case Ok(rest) =>
          BuiltShift(cfg, entries, feed, rest.feeds);
          Ok(FeedController([feed] + rest.feeds))
  }

  /** A failure in the tail is a failure of the whole sequence, one place on. */
  lemma FirstFailureShift(cfg: Config, entries: seq<(string, FeedParams)>, i: int)
    requires |entries| > 0 && BuildFeed(cfg, entries[0].0, entries[0].1).Ok?
    requires FirstFailure(cfg, entries[1..], i)
    ensures FirstFailure(cfg, entries, i + 1) && entries[i + 1] == entries[1..][i]
  {
    assert forall j :: 1 <= j < |entries| ==> entries[j] == entries[1..][j - 1];
  }

  /** The feeds built from the tail, after the first entry's feed, are the
      feeds built from all entries. */
  lemma BuiltShift(cfg: Config, entries: seq<(string, FeedParams)>, feed: Feed, rest: seq<Feed>)
    requires |entries| > 0 && BuildFeed(cfg, entries[0].0, entries[0].1) == Ok(feed)
    requires |rest| == |entries| - 1
    requires forall i :: 0 <= i < |rest| ==> Ok(rest[i]) == BuildFeed(cfg, entries[1..][i].0, entries[1..][i].1)
    ensures forall i :: 0 <= i < |entries| ==> Ok(([feed] + rest)[i]) == BuildFeed(cfg, entries[i].0, entries[i].1)
  {
    forall i | 1 <= i < |entries|
      ensures Ok(([feed] + rest)[i]) == BuildFeed(cfg, entries[i].0, entries[i].1)
    {
      assert entries[i] == entries[1..][i - 1];
    }
  }

  /** Entry `i` is the first whose construction raises. */
  predicate FirstFailure(cfg: Config, entries: seq<(string, FeedParams)>, i: int) {
    && 0 <= i < |entries|
    && (forall j :: 0 <= j < i ==> BuildFeed(cfg, entries[j].0, entries[j].1).Ok?)
    && BuildFeed(cfg, entries[i].0, entries[i].1).Err?
  }

  /** `haveFeeds`. */
  function HaveFeeds(c: FeedController): bool {
    |c.feeds| > 0
  }

  /** A built controller has feeds exactly when the configuration has a
      non-empty `feeds` block; every feed it holds has a width divisible by 4
      and starts unnumbered. */
  lemma BuiltController(cfg: Config)
    requires BuildController(cfg).Ok?
    ensures HaveFeeds(BuildController(cfg).value) <==> cfg.feeds.Some? && |cfg.feeds.value| > 0
    ensures var fs := BuildController(cfg).value.feeds;
      forall i :: 0 <= i < |fs| ==> fs[i].spec.xPixels % 4 == 0 && fs[i].state == Initial && Valid(fs[i])
  {
    var fs := BuildController(cfg).value.feeds;
    if cfg.feeds.Some? {
      var entries := cfg.feeds.value;
      forall i | 0 <= i < |fs|
        ensures fs[i].spec.xPixels % 4 == 0 && fs[i].state == Initial && Valid(fs[i])
      {
        assert Ok(fs[i]) == BuildFeed(cfg, entries[i].0, entries[i].1);
      }
    }
  }

  /** A configuration naming a feed type the controller does not know is
      rejected with an error naming both the type and the feed. */
  lemma UnknownTypeRejected(cfg: Config, i: nat)
    requires cfg.feeds.Some? && i < |cfg.feeds.value|
    requires forall j :: 0 <= j < i ==> BuildFeed(cfg, cfg.feeds.value[j].0, cfg.feeds.value[j].1).Ok?
    requires cfg.feeds.value[i].1.source in cfg.cameras && !KnownType(cfg.feeds.value[i].1.feedType)
    ensures BuildController(cfg) == Err(UnknownFeedType(cfg.feeds.value[i].1.feedType, cfg.feeds.value[i].0))
  {
    var entries := cfg.feeds.value;
    var r := BuildController(cfg);
    assert FirstFailure(cfg, entries, i);
    var i' :| FirstFailure(cfg, entries, i') && Err(r.error) == BuildFeed(cfg, entries[i'].0, entries[i'].1);
    assert i' == i;
  }

  /** The concatenation of a sequence of frame lists. */
  function Flatten(outs: seq<seq<DerivedFrame>>): seq<DerivedFrame>
    decreases |outs|
  {
    if |outs| == 0 then [] else outs[0] + Flatten(outs[1..])
  }

  /** Each feed's output for `raw`, in configuration order. */
  function Outputs(feeds: seq<Feed>, raw: RawFrame): seq<seq<DerivedFrame>>
    requires forall i :: 0 <= i < |feeds| ==> Ingest(feeds[i], raw).Ok?
  {
    seq(|feeds|, i requires 0 <= i < |feeds| => Ingest(feeds[i], raw).value.1)
  }

  /** `newFrame`: every feed takes the frame in configuration order and the
      outputs are concatenated in that order; the first exception aborts. */
  function NewFrame(c: FeedController, raw: RawFrame): (r: Result<(FeedController, seq<DerivedFrame>), FeedError>)
    ensures r.Ok? <==> forall i :: 0 <= i < |c.feeds| ==> Ingest(c.feeds[i], raw).Ok?
    ensures r.Ok? ==>
      && |r.value.0.feeds| == |c.feeds|
      && (forall i :: 0 <= i < |c.feeds| ==> r.value.0.feeds[i] == Ingest(c.feeds[i], raw).value.0)
      && r.value.1 == Flatten(Outputs(c.feeds, raw))
    decreases |c.feeds|
  {
    if |c.feeds| == 0 then Ok((c, []))
    else
      var tail := FeedController(c.feeds[1..]);
      match Ingest(c.feeds[0], raw)
      case Err(e) => Err(e)
      case Ok((feed, out)) =>
        match NewFrame(tail, raw)
        case Err(e) =>
          assert exists i :: 1 <= i < |c.feeds| && !Ingest(c.feeds[i], raw).Ok? by {
            var i :| 0 <= i < |tail.feeds| && !Ingest(tail.feeds[i], raw).Ok?;
            assert c.feeds[i + 1] == tail.feeds[i];
          }
          Err(e)
        case Ok((rest, outs)) =>
          NewFrameCons(c.feeds, raw, feed, out, rest.feeds, outs);
          Ok((FeedController([feed] + rest.feeds), out + outs))
  }

  /** The first feed's step followed by the other feeds' steps is the step of all feeds. */
  lemma NewFrameCons(feeds: seq<Feed>, raw: RawFrame, feed: Feed, out: seq<DerivedFrame>,
                     rest: seq<Feed>, outs: seq<DerivedFrame>)
    requires |feeds| > 0 && Ingest(feeds[0], raw) == Ok((feed, out))
    requires forall i :: 0 <= i < |feeds| - 1 ==> Ingest(feeds[1..][i], raw).Ok?
    requires |rest| == |feeds| - 1
    requires forall i :: 0 <= i < |rest| ==> rest[i] == Ingest(feeds[1..][i], raw).value.0
    requires outs == Flatten(Outputs(feeds[1..], raw))
    ensures forall i :: 0 <= i < |feeds| ==> Ingest(feeds[i], raw).Ok?
    ensures forall i :: 0 <= i < |feeds| ==> ([feed] + rest)[i] == Ingest(feeds[i], raw).value.0
    ensures out + outs == Flatten(Outputs(feeds, raw))
  {
    assert forall i :: 1 <= i < |feeds| ==> feeds[i] == feeds[1..][i - 1];
    assert Outputs(feeds, raw)[1..] == Outputs(feeds[1..], raw);
  }

  /** A frame from a camera no feed uses leaves every feed as it was and
      yields nothing, unless some feed is a zero-batch averaging feed with no
      frames counted. */
  lemma ForeignFrameIgnoredByAll(c: FeedController, raw: RawFrame)
    requires forall i :: 0 <= i < |c.feeds| ==> Valid(c.feeds[i])
    requires forall i :: 0 <= i < |c.feeds| ==>
      raw.camera != c.feeds[i].spec.cameraName && !CrashesOnForeignFrame(c.feeds[i])
    ensures NewFrame(c, raw) == Ok((c, []))
  {
    forall i | 0 <= i < |c.feeds|
      ensures Ingest(c.feeds[i], raw) == Ok((c.feeds[i], []))
    {
      ForeignFrameIgnored(c.feeds[i], raw);
    }
    var r := NewFrame(c, raw).value;
    assert r.0.feeds == c.feeds;
    FlattenEmpty(Outputs(c.feeds, raw));
  }

  lemma {:induction false} FlattenEmpty(outs: seq<seq<DerivedFrame>>)
    requires forall i :: 0 <= i < |outs| ==> outs[i] == []
    ensures Flatten(outs) == []
    decreases |outs|
  {
    if |outs| > 0 {
      FlattenEmpty(outs[1..]);
    }
  }

  /** Each feed contributes at most one frame, so a frame yields at most as
      many outputs as there are feeds. */
  lemma NewFrameBound(c: FeedController, raw: RawFrame)
    requires NewFrame(c, raw).Ok?
    ensures |NewFrame(c, raw).value.1| <= |c.feeds|
  {
    FlattenBound(Outputs(c.feeds, raw));
  }

  lemma {:induction false} FlattenBound(outs: seq<seq<DerivedFrame>>)
    requires forall i :: 0 <= i < |outs| ==> |outs[i]| <= 1
    ensures |Flatten(outs)| <= |outs|
    decreases |outs|
  {
    if |outs| > 0 {
      FlattenBound(outs[1..]);
    }
  }

  /** `resetFeeds`: every feed is reset and nothing else changes. */
  function ResetFeeds(c: FeedController): (r: FeedController)
    ensures |r.feeds| == |c.feeds|
    ensures forall i :: 0 <= i < |c.feeds| ==>
      r.feeds[i].spec == c.feeds[i].spec && r.feeds[i].policy == c.feeds[i].policy &&
      r.feeds[i].state == Initial
  {
    FeedController(seq(|c.feeds|, i requires 0 <= i < |c.feeds| => Reset(c.feeds[i])))
  }

  /** Resetting twice is resetting once, and a freshly built controller is
      already reset. */
  lemma ResetFeedsIdempotent(c: FeedController, cfg: Config)
    ensures ResetFeeds(ResetFeeds(c)) == ResetFeeds(c)
    ensures BuildController(cfg).Ok? ==> ResetFeeds(BuildController(cfg).value) == BuildController(cfg).value
  {
    if BuildController(cfg).Ok? {
      var b := BuildController(cfg).value;
      BuiltController(cfg);
      assert ResetFeeds(b).feeds == b.feeds;
    }
  }

  /** `getFeedsInfo`: each feed's record keyed by its feed name; a later feed
      with the same name replaces an earlier one. */
  function FeedsInfo(c: FeedController): (m: map<string, FeedInfo>)
    ensures IndexesFeeds(c.feeds, m)
  {
    InfoMap(c.feeds)
  }

  /** `m` is keyed by exactly the feed names of `feeds`, and a name's record
      is that of the last feed with the name. */
  predicate IndexesFeeds(feeds: seq<Feed>, m: map<string, FeedInfo>) {
    && (forall i :: 0 <= i < |feeds| ==> feeds[i].spec.info.feedName in m)
    && (forall x :: x in m ==> exists i :: 0 <= i < |feeds| && feeds[i].spec.info.feedName == x)
    && (forall i :: 0 <= i < |feeds| && LastWithName(feeds, i) ==>
          m[feeds[i].spec.info.feedName] == feeds[i].spec.info)
  }

  /** No feed after the `i`-th has the same feed name. */
  predicate LastWithName(feeds: seq<Feed>, i: int)
    requires 0 <= i < |feeds|
  {
    forall j :: i < j < |feeds| ==> feeds[j].spec.info.feedName != feeds[i].spec.info.feedName
  }

  /** The loop of `getFeedsInfo`, from its last iteration back: a record
      written later replaces one written earlier. */
  function InfoMap(feeds: seq<Feed>): (m: map<string, FeedInfo>)
    ensures IndexesFeeds(feeds, m)
    decreases |feeds|
  {
    if |feeds| == 0 then map[]
    else
      var first := feeds[0].spec.info;
      var later := InfoMap(feeds[1..]);
      InfoMapCons(feeds, later);
      if first.feedName in later then later else later[first.feedName := first]
  }

  lemma InfoMapCons(feeds: seq<Feed>, later: map<string, FeedInfo>)
    requires |feeds| > 0 && IndexesFeeds(feeds[1..], later)
    ensures var first := feeds[0].spec.info;
      IndexesFeeds(feeds, if first.feedName in later then later else later[first.feedName := first])
  {
    InfoMapConsKeys(feeds, later);
    InfoMapConsValues(feeds, later);
  }

  lemma InfoMapConsKeys(feeds: seq<Feed>, later: map<string, FeedInfo>)
    requires |feeds| > 0 && IndexesFeeds(feeds[1..], later)
    ensures var first := feeds[0].spec.info;
      var m := if first.feedName in later then later else later[first.feedName := first];
      && (forall i :: 0 <= i < |feeds| ==> feeds[i].spec.info.feedName in m)
      && (forall x :: x in m ==> exists i :: 0 <= i < |feeds| && feeds[i].spec.info.feedName == x)
  {
    var first := feeds[0].spec.info;
    var rest := feeds[1..];
    var m := if first.feedName in later then later else later[first.feedName := first];
    forall i | 1 <= i < |feeds|
      ensures feeds[i].spec.info.feedName in m
    {
      assert feeds[i] == rest[i - 1];
    }
    forall x | x in m
      ensures exists i :: 0 <= i < |feeds| && feeds[i].spec.info.feedName == x
    {
      if x != first.feedName {
        var j :| 0 <= j < |rest| && rest[j].spec.info.feedName == x;
        assert feeds[j + 1].spec.info.feedName == x;
      }
    }
  }

  lemma InfoMapConsValues(feeds: seq<Feed>, later: map<string, FeedInfo>)
    requires |feeds| > 0 && IndexesFeeds(feeds[1..], later)
    ensures var first := feeds[0].spec.info;
      var m := if first.feedName in later then later else later[first.feedName := first];
      forall i :: 0 <= i < |feeds| && LastWithName(feeds, i) ==>
        feeds[i].spec.info.feedName in m && m[feeds[i].spec.info.feedName] == feeds[i].spec.info
  {
    var first := feeds[0].spec.info;
    var rest := feeds[1..];
    var m := if first.feedName in later then later else later[first.feedName := first];
    forall i | 0 <= i < |feeds| && LastWithName(feeds, i)
      ensures feeds[i].spec.info.feedName in m && m[feeds[i].spec.info.feedName] == feeds[i].spec.info
    {
      if i == 0 {
        forall j | 0 <= j < |rest|
          ensures rest[j].spec.info.feedName != first.feedName
        {
          assert rest[j] == feeds[j + 1];
        }
      } else {
        assert feeds[i] == rest[i - 1];
        assert LastWithName(rest, i - 1) by {
          forall j | i - 1 < j < |rest|
            ensures rest[j].spec.info.feedName != rest[i - 1].spec.info.feedName
          {
            assert rest[j] == feeds[j + 1];
          }
        }
      }
    }
  }

  /** For a built controller the keys of `getFeedsInfo` are the feed
      identifiers `camera-feed` of the configured entries. */
  lemma FeedsInfoKeys(cfg: Config, c: FeedController)
    requires cfg.feeds.Some? && BuildController(cfg) == Ok(c)
    ensures forall x :: x in FeedsInfo(c) <==>
      exists i :: 0 <= i < |cfg.feeds.value| && x == FeedId(cfg.feeds.value[i].1.source, cfg.feeds.value[i].0)
  {
    var entries := cfg.feeds.value;
    assert |c.feeds| == |entries|;
    forall i | 0 <= i < |c.feeds|
      ensures c.feeds[i].spec.info.feedName == FeedId(entries[i].1.source, entries[i].0)
    {
      assert Ok(c.feeds[i]) == BuildFeed(cfg, entries[i].0, entries[i].1);
    }
  }
}

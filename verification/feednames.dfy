/** `getCameraFeedName`: splitting a feed identifier back into its camera
    and feed names. */
module FeedNames {
  import opened Results
  import opened Text
  import opened FeedSpecs

  /** The pieces of `name` split at every `-`, or `[name, None]` when there
      is no `-`. Like the source, more than two pieces are returned as they are. */
  function GetCameraFeedName(name: string): (r: seq<Option<string>>)
    ensures |r| >= 2
    ensures r[0].Some?
    ensures '-' !in name ==> r == [Some(name), None]
    ensures '-' in name ==> forall i :: 0 <= i < |r| ==> r[i].Some? && '-' !in r[i].value
  {
    var parts := Split(name, '-');
    SplitHasSep(name);
    if |parts| > 1 then seq(|parts|, i requires 0 <= i < |parts| => Some(parts[i]))
    else [Some(parts[0]), None]
  }

  /** `name` splits into more than one piece exactly when it contains a `-`. */
  lemma SplitHasSep(name: string)
    ensures |Split(name, '-')| > 1 <==> '-' in name
    ensures '-' !in name ==> Split(name, '-') == [name]
  {
    var parts := Split(name, '-');
    JoinSplit(name, '-');
    assert |parts| == 1 ==> Join(parts, '-') == parts[0];
    if '-' !in name {
      SplitNoSep(name, '-');
    }
  }

  /** The pieces are exactly `name`'s `-`-separated fields: joined back with
      `-` they give `name`. */
  lemma GetCameraFeedNameJoins(name: string)
    requires '-' in name
    ensures var r := GetCameraFeedName(name);
      Join(seq(|r|, i requires 0 <= i < |r| => r[i].value), '-') == name
  {
    var parts := Split(name, '-');
    var r := GetCameraFeedName(name);
    JoinSplit(name, '-');
    assert seq(|r|, i requires 0 <= i < |r| => r[i].value) == parts;
  }

  /** The identifier a feed is given splits back into its camera and feed
      names when neither contains a `-`. */
  lemma FeedIdRoundTrip(camera: string, feed: string)
    requires '-' !in camera && '-' !in feed
    ensures GetCameraFeedName(FeedId(camera, feed)) == [Some(camera), Some(feed)]
  {
    SplitAtSep(camera, feed, '-');
    SplitNoSep(feed, '-');
  }
}

/**
 * The layout of the stored object keys, `/<date>/<frequency>/<stamp><ext>`,
 * and what substring matching does on keys laid out that way: each key is
 * picked up under its own minute and no other, so a window returns the
 * recordings of its minutes in minute order.
 */
module Keys {
  import opened Optional
  import opened Text
  import opened Calendar
  import opened Catalog
  import opened Selector

  /** A recording's key: date segment, frequency segment, then the stamp and an extension. */
  function ObjectKey(date: string, freq: string, t: DateTime, ext: string): string
    requires InRange(t)
  {
    "/" + date + "/" + freq + "/" + StampLabel(t) + ext
  }

  /** An extension such as ".wav" or ".ogg": no '/', no digit and no '_'. */
  predicate PlainExtension(ext: string)
  {
    forall i | 0 <= i < |ext| :: ext[i] != '/' && ext[i] != '_' && !IsDigit(ext[i])
  }

  /** Segments as the store's keys carry them: no '/' and shorter than a stamp. */
  predicate ShortSegment(s: string)
  {
    '/' !in s && |s| < 20
  }

  /** The key lies under the `/filelist/<date>/<freq>` prefix. */
  lemma ObjectKeyListed(date: string, freq: string, t: DateTime, ext: string)
    requires InRange(t)
    ensures StartsWith(ObjectKey(date, freq, t, ext), FilePrefix(Some(date), Some(freq)))
    ensures StartsWith(ObjectKey(date, freq, t, ext), FilePrefix(Some(date), None))
  {
    var p := "/" + date + "/" + freq;
    var k := ObjectKey(date, freq, t, ext);
    assert k == p + ("/" + StampLabel(t) + ext);
    assert k[..|p|] == p;
    assert k[..|"/" + date|] == ("/" + date + ("/" + freq + "/" + StampLabel(t) + ext))[..|"/" + date|];
  }

  /**
   * A key contains the stamp of a time exactly when that time is the key's
   * own: the substring test of `/preparefiles` picks each such key up under
   * one minute only.
   */
  lemma ObjectKeyStamp(date: string, freq: string, t: DateTime, ext: string, u: DateTime)
    requires InRange(t) && InRange(u)
    requires ShortSegment(date) && ShortSegment(freq) && PlainExtension(ext)
    ensures Contains(ObjectKey(date, freq, t, ext), StampLabel(u)) <==> u == t
  {
    var p := "/" + date + "/" + freq + "/";
    var lt, lu := StampLabel(t), StampLabel(u);
    var k := ObjectKey(date, freq, t, ext);
    assert k == p + lt + ext;
    if u == t {
      ContainsMiddle(p, lt, ext);
    } else if Contains(k, lu) {
      StampLabelShape(t);
      StampLabelShape(u);
      var i: nat :| i <= |k| - |lu| && OccursAt(k, lu, i);
      // the window [i, i + 20) holds only digits and '_'
      if i < |p| {
        var s := if i == 0 then 0 else if i <= 1 + |date| then 1 + |date| else |p| - 1;
        assert p[s] == '/';
        assert k[s] == p[s];
        OccursAtChar(k, lu, i, s);
      } else if i > |p| {
        var s := i + 19;
        assert k[s] == ext[s - |p| - 20];
        OccursAtChar(k, lu, i, s);
      } else {
        assert k[|p|..|p| + 20] == lt;
        StampLabelInjective(t, u);
      }
    }
  }

  /**
   * A laid-out key is selected by a window exactly when it is listed and its
   * own time is one of the window's minutes, whether or not the request names
   * the key's frequency.
   */
  lemma WindowSelectsOwnMinute(start: DateTime, duration: nat, sel: Option<string>, listing: seq<string>,
                               date: string, freq: string, t: DateTime, ext: string)
    requires WellFormed(start) && WindowInRange(start, duration) && InRange(t)
    requires ShortSegment(date) && ShortSegment(freq) && PlainExtension(ext)
    requires sel == None || sel == Some(freq)
    ensures ObjectKey(date, freq, t, ext) in Window(start, duration, sel, listing) <==>
      ObjectKey(date, freq, t, ext) in listing && exists d: nat | d < duration :: MinuteAt(start, d) == t
  {
    var k := ObjectKey(date, freq, t, ext);
    WindowMember(start, duration, sel, listing, k);
    assert k == "/" + date + "/" + freq + ("/" + StampLabel(t) + ext);
    ContainsMiddle("/" + date + "/", freq, "/" + StampLabel(t) + ext);
    forall d: nat | d < duration
      ensures InRange(MinuteAt(start, d))
      ensures Matches(k, StampLabel(MinuteAt(start, d)), sel) <==> MinuteAt(start, d) == t
    {
      MinuteInRange(start, duration, d);
      ObjectKeyStamp(date, freq, t, ext, MinuteAt(start, d));
    }
  }

  // ---------------------------------------------------------------------------
  // Two recordings a minute apart
  // ---------------------------------------------------------------------------

  /** 2020-02-10 12:00:00, the start the text "2020-02-10_12-00" denotes. */
  const Noon := DateTime(2020, 2, 10, 12, 0, 0)

  /** One minute later. */
  const NoonPlusOne := DateTime(2020, 2, 10, 12, 1, 0)

  /** The bucket's two recordings on 120_5MHz, one per minute. */
  function NoonKeys(): seq<string>
  {
    [ObjectKey("2020-02-10", "120_5MHz", Noon, ".wav"), ObjectKey("2020-02-10", "120_5MHz", NoonPlusOne, ".wav")]
  }

  /** The route text of the start parses to 12:00 on 2020-02-10. */
  lemma NoonText()
    ensures ParseStart("2020-02-10_12-00") == Some(Noon)
  {
    ParseStartText(Noon);
    assert StartText(Noon) == "2020-02-10_12-00";
  }

  /** The segments and the extension of the example keys have the shape the store gives them. */
  lemma NoonSegments()
    ensures ShortSegment("2020-02-10") && ShortSegment("120_5MHz") && PlainExtension(".wav")
  {
  }

  /** An example key contains its frequency segment. */
  lemma NoonFrequency(t: DateTime)
    requires InRange(t)
    ensures Contains(ObjectKey("2020-02-10", "120_5MHz", t, ".wav"), "120_5MHz")
  {
    var tail := "/" + StampLabel(t) + ".wav";
    assert ObjectKey("2020-02-10", "120_5MHz", t, ".wav") == "/2020-02-10/" + "120_5MHz" + tail;
    ContainsMiddle("/2020-02-10/", "120_5MHz", tail);
  }

  /** Each recording carries its own minute's stamp and the other's not. */
  lemma NoonStamps(t: DateTime, u: DateTime)
    requires t == Noon || t == NoonPlusOne
    requires u == Noon || u == NoonPlusOne
    ensures Matches(ObjectKey("2020-02-10", "120_5MHz", t, ".wav"), StampLabel(u), Some("120_5MHz")) <==> u == t
  {
    NoonSegments();
    NoonFrequency(t);
    ObjectKeyStamp("2020-02-10", "120_5MHz", t, ".wav", u);
  }

  /** Each minute's block holds that minute's recording only. */
  lemma NoonBlocks()
    ensures Block(NoonKeys(), StampLabel(Noon), Some("120_5MHz")) == [NoonKeys()[0]]
    ensures Block(NoonKeys(), StampLabel(NoonPlusOne), Some("120_5MHz")) == [NoonKeys()[1]]
  {
    var keys := NoonKeys();
    NoonStamps(Noon, Noon);
    NoonStamps(Noon, NoonPlusOne);
    NoonStamps(NoonPlusOne, Noon);
    NoonStamps(NoonPlusOne, NoonPlusOne);
    assert keys[..1] == [keys[0]];
  }

  /**
   * Starting at 12:00 on 120_5MHz, a two-minute window selects both
   * recordings in minute order and a one-minute window the first only.
   */
  lemma NoonWindows()
    ensures WindowInRange(Noon, 2)
    ensures Window(Noon, 2, Some("120_5MHz"), NoonKeys()) == NoonKeys()
    ensures Window(Noon, 1, Some("120_5MHz"), NoonKeys()) == [NoonKeys()[0]]
  {
    var f := Some("120_5MHz");
    var keys := NoonKeys();
    assert MinuteAt(Noon, 1) == NoonPlusOne;
    WindowStep(Noon, 0, f, keys);
    WindowStep(Noon, 1, f, keys);
    NoonBlocks();
  }
}

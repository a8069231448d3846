/**
 * Time-window selection, the core of `/preparefiles`: for each minute offset
 * `d` in `0 .. duration-1` the stamp of `start + d` minutes is formed, and
 * every listed key that contains that stamp (and the frequency, when one is
 * requested) is taken, offset by offset, in listing order, without
 * deduplication.
 */
module Selector {
  import opened Optional
  import opened Text
  import opened Calendar

  // ---------------------------------------------------------------------------
  // Selecting keys for a run of stamps
  // ---------------------------------------------------------------------------

  /** The per-key test: the key contains the stamp and, when a frequency is given, the frequency. */
  predicate Matches(key: string, stamp: string, freq: Option<string>)
  {
    (freq.Some? ==> Contains(key, freq.value)) && Contains(key, stamp)
  }

  /** The listed keys that match one stamp, in listing order. */
  function Block(listing: seq<string>, stamp: string, freq: Option<string>): seq<string>
    decreases |listing|
  {
    if listing == [] then []
    else
      var last := listing[|listing| - 1];
      Block(listing[..|listing| - 1], stamp, freq) + (if Matches(last, stamp, freq) then [last] else [])
  }

  /** The selection for a run of stamps: their blocks, one after another. */
  function Select(stamps: seq<string>, freq: Option<string>, listing: seq<string>): seq<string>
    decreases |stamps|
  {
    if stamps == [] then []
    else Select(stamps[..|stamps| - 1], freq, listing) + Block(listing, stamps[|stamps| - 1], freq)
  }

  /**
   * The inner loop of `/preparefiles`: walk the listing once and append every
   * key that contains the frequency (when one is given) and the stamp.
   */
  method AppendMatches(fileList: seq<string>, listing: seq<string>, stamp: string, freq: Option<string>)
    returns (out: seq<string>)
    ensures out == fileList + Block(listing, stamp, freq)
  {
    out := fileList;
    var i := 0;
    while i < |listing|
      invariant 0 <= i <= |listing|
      invariant out == fileList + Block(listing[..i], stamp, freq)
    {
      var key := listing[i];
      assert listing[..i + 1][..i] == listing[..i];
      if freq.Some? {
        if Contains(key, freq.value) && Contains(key, stamp) {
          out := out + [key];
        }
      } else {
        if Contains(key, stamp) {
          out := out + [key];
        }
      }
      i := i + 1;
    }
    assert listing[..i] == listing;
  }

  /** A block holds exactly the listed keys that match. */
  lemma {:induction false} BlockMember(listing: seq<string>, stamp: string, freq: Option<string>, k: string)
    ensures k in Block(listing, stamp, freq) <==> k in listing && Matches(k, stamp, freq)
    decreases |listing|
  {
    if listing != [] {
      var init := listing[..|listing| - 1];
      BlockMember(init, stamp, freq, k);
      assert listing == init + [listing[|listing| - 1]];
    }
  }

  /**
   * Soundness and completeness: a key is selected exactly when it is listed
   * and matches one of the stamps.
   */
  lemma {:induction false} SelectMember(stamps: seq<string>, freq: Option<string>, listing: seq<string>, k: string)
    ensures k in Select(stamps, freq, listing) <==>
      k in listing && exists d | 0 <= d < |stamps| :: Matches(k, stamps[d], freq)
    decreases |stamps|
  {
    if stamps != [] {
      var init := stamps[..|stamps| - 1];
      SelectMember(init, freq, listing, k);
      BlockMember(listing, stamps[|stamps| - 1], freq, k);
      if exists d | 0 <= d < |stamps| :: Matches(k, stamps[d], freq) {
        var d :| 0 <= d < |stamps| && Matches(k, stamps[d], freq);
        if d < |init| {
          assert init[d] == stamps[d];
        }
      }
      if exists d | 0 <= d < |init| :: Matches(k, init[d], freq) {
        var d :| 0 <= d < |init| && Matches(k, init[d], freq);
        assert stamps[d] == init[d];
      }
    }
  }

  /** The selection for the first `m` stamps is the beginning of the whole selection. */
  lemma {:induction false} SelectPrefix(stamps: seq<string>, m: nat, freq: Option<string>, listing: seq<string>)
    requires m <= |stamps|
    ensures |Select(stamps[..m], freq, listing)| <= |Select(stamps, freq, listing)|
    ensures Select(stamps, freq, listing)[..|Select(stamps[..m], freq, listing)|] == Select(stamps[..m], freq, listing)
    decreases |stamps| - m
  {
    if m < |stamps| {
      var init := stamps[..|stamps| - 1];
      SelectPrefix(init, m, freq, listing);
      assert init[..m] == stamps[..m];
      var w := Select(init, freq, listing);
      assert Select(stamps, freq, listing)[..|w|] == w;
    } else {
      assert stamps[..m] == stamps;
    }
  }

  /** Within one offset the listing order is kept: the block of a split listing is the two blocks in turn. */
  lemma {:induction false} BlockAppend(xs: seq<string>, ys: seq<string>, stamp: string, freq: Option<string>)
    ensures Block(xs + ys, stamp, freq) == Block(xs, stamp, freq) + Block(ys, stamp, freq)
    decreases |ys|
  {
    if ys == [] {
      assert xs + ys == xs;
    } else {
      var zs := xs + ys;
      assert zs[..|zs| - 1] == xs + ys[..|ys| - 1];
      assert zs[|zs| - 1] == ys[|ys| - 1];
      BlockAppend(xs, ys[..|ys| - 1], stamp, freq);
    }
  }

  /** A block holds each matching key as often as the listing does, and no other key. */
  lemma {:induction false} BlockCount(listing: seq<string>, stamp: string, freq: Option<string>, k: string)
    ensures multiset(Block(listing, stamp, freq))[k]
      == if Matches(k, stamp, freq) then multiset(listing)[k] else 0
    decreases |listing|
  {
    if listing != [] {
      var init := listing[..|listing| - 1];
      BlockCount(init, stamp, freq, k);
      assert listing == init + [listing[|listing| - 1]];
    }
  }

  /** How many of the stamps the key matches. */
  function MatchCount(stamps: seq<string>, freq: Option<string>, k: string): nat
    decreases |stamps|
  {
    if stamps == [] then 0
    else MatchCount(stamps[..|stamps| - 1], freq, k) + (if Matches(k, stamps[|stamps| - 1], freq) then 1 else 0)
  }

  /**
   * No deduplication: a key occurs once per matching stamp and per listing
   * occurrence, so a key listed once appears at most once per offset but may
   * appear under several offsets.
   */
  lemma {:induction false} SelectCount(stamps: seq<string>, freq: Option<string>, listing: seq<string>, k: string)
    ensures multiset(Select(stamps, freq, listing))[k] == multiset(listing)[k] * MatchCount(stamps, freq, k)
    decreases |stamps|
  {
    if stamps != [] {
      var init, stamp := stamps[..|stamps| - 1], stamps[|stamps| - 1];
      var before, block := Select(init, freq, listing), Block(listing, stamp, freq);
      var c, m, hit := multiset(listing)[k], MatchCount(init, freq, k), Matches(k, stamp, freq);
      calc {
        multiset(Select(stamps, freq, listing))[k];
        multiset(before + block)[k];
        multiset(before)[k] + multiset(block)[k];
        { SelectCount(init, freq, listing, k); BlockCount(listing, stamp, freq, k); }
        c * m + (if hit then c else 0);
        { CountStep(c, m, hit); }
        c * (m + if hit then 1 else 0);
        c * MatchCount(stamps, freq, k);
      }
    }
  }

  lemma CountStep(c: nat, m: nat, hit: bool)
    ensures c * (m + if hit then 1 else 0) == c * m + if hit then c else 0
  {
  }

  /**
   * When every listed key already contains the frequency (as under the prefix
   * "/<date>/<freq>"), the frequency test changes nothing.
   */
  lemma {:induction false} FrequencyTestRedundant(stamps: seq<string>, f: string, listing: seq<string>)
    requires forall k | k in listing :: Contains(k, f)
    ensures Select(stamps, Some(f), listing) == Select(stamps, None, listing)
    decreases |stamps|
  {
    if stamps != [] {
      FrequencyTestRedundant(stamps[..|stamps| - 1], f, listing);
      BlockIgnoresFrequency(listing, stamps[|stamps| - 1], f);
    }
  }

  lemma {:induction false} BlockIgnoresFrequency(listing: seq<string>, stamp: string, f: string)
    requires forall k | k in listing :: Contains(k, f)
    ensures Block(listing, stamp, Some(f)) == Block(listing, stamp, None)
    decreases |listing|
  {
    if listing != [] {
      BlockIgnoresFrequency(listing[..|listing| - 1], stamp, f);
    }
  }

  // ---------------------------------------------------------------------------
  // The minutes of a window and their stamps
  // ---------------------------------------------------------------------------

  /** `start + timedelta(minutes=d)`. */
  function MinuteAt(start: DateTime, d: nat): DateTime
    requires WellFormed(start)
  {
    AddMinutes(start, d)
  }

  /**
   * Every minute of the window is a time Python's `datetime` can represent;
   * as minutes only move forward, it suffices that the last one is.
   */
  predicate WindowInRange(start: DateTime, duration: nat)
    requires WellFormed(start)
  {
    duration == 0 || MinuteAt(start, duration - 1).year <= MaxYear
  }

  lemma {:induction false} YearsMoveForward(start: DateTime, a: nat, b: nat)
    requires WellFormed(start) && a <= b
    ensures MinuteAt(start, a).year <= MinuteAt(start, b).year
    decreases b - a
  {
    if a < b {
      YearsMoveForward(start, a, b - 1);
    }
  }

  /** A window that fits keeps fitting when it is shortened. */
  lemma WindowShrinks(start: DateTime, m: nat, n: nat)
    requires WellFormed(start) && WindowInRange(start, n) && m <= n
    ensures WindowInRange(start, m)
  {
    if 0 < m {
      YearsMoveForward(start, m - 1, n - 1);
    }
  }

  /** Each minute of a window that fits is a representable time. */
  lemma MinuteInRange(start: DateTime, duration: nat, d: nat)
    requires WellFormed(start) && WindowInRange(start, duration) && d < duration
    ensures InRange(MinuteAt(start, d))
  {
    YearsMoveForward(start, d, duration - 1);
  }

  /** A window with a minute past year 9999 does not fit. */
  lemma WindowOverflows(start: DateTime, delta: nat, duration: nat)
    requires WellFormed(start) && delta < duration && MinuteAt(start, delta).year > MaxYear
    ensures !WindowInRange(start, duration)
  {
    YearsMoveForward(start, delta, duration - 1);
  }

  /** `[f(x) for x in xs]`. */
  function Map<A, B>(f: A --> B, xs: seq<A>): (ys: seq<B>)
    requires forall i | 0 <= i < |xs| :: f.requires(xs[i])
    ensures |ys| == |xs|
    decreases |xs|
  {
    if xs == [] then [] else Map(f, xs[..|xs| - 1]) + [f(xs[|xs| - 1])]
  }

  lemma {:induction false} MapAt<A, B>(f: A --> B, xs: seq<A>, i: nat)
    requires forall j | 0 <= j < |xs| :: f.requires(xs[j])
    requires i < |xs|
    ensures Map(f, xs)[i] == f(xs[i])
    decreases |xs|
  {
    if i < |xs| - 1 {
      MapAt(f, xs[..|xs| - 1], i);
    }
  }

  lemma {:induction false} MapPrefix<A, B>(f: A --> B, xs: seq<A>, m: nat)
    requires forall j | 0 <= j < |xs| :: f.requires(xs[j])
    requires m <= |xs|
    ensures Map(f, xs)[..m] == Map(f, xs[..m])
    decreases |xs|
  {
    if m < |xs| {
      var init := xs[..|xs| - 1];
      MapPrefix(f, init, m);
      assert init[..m] == xs[..m];
    } else {
      assert xs[..m] == xs;
    }
  }

  /** The minutes of the window, offset 0 first. */
  function Times(start: DateTime, duration: nat): (times: seq<DateTime>)
    requires WellFormed(start)
    ensures |times| == duration
    decreases duration
  {
    if duration == 0 then [] else Times(start, duration - 1) + [MinuteAt(start, duration - 1)]
  }

  lemma {:induction false} TimesAt(start: DateTime, duration: nat, d: nat)
    requires WellFormed(start) && d < duration
    ensures Times(start, duration)[d] == MinuteAt(start, d)
    decreases duration
  {
    if d < duration - 1 {
      TimesAt(start, duration - 1, d);
    }
  }

  lemma {:induction false} TimesPrefix(start: DateTime, m: nat, n: nat)
    requires WellFormed(start) && m <= n
    ensures Times(start, n)[..m] == Times(start, m)
    decreases n - m
  {
    if m < n {
      TimesPrefix(start, m, n - 1);
      assert Times(start, n)[..n - 1] == Times(start, n - 1);
    }
  }

  /** The last minute being representable makes every minute of the window representable. */
  lemma TimesInRange(start: DateTime, duration: nat)
    requires WellFormed(start) && WindowInRange(start, duration)
    ensures forall i | 0 <= i < duration :: InRange(Times(start, duration)[i])
  {
    forall d | 0 <= d < duration ensures InRange(Times(start, duration)[d]) {
      TimesAt(start, duration, d);
      MinuteInRange(start, duration, d);
    }
  }

  /** The `strftime('%Y_%m_%d__%H_%M_%S')` stamps of the window's minutes, offset 0 first. */
  function WindowStamps(start: DateTime, duration: nat): (stamps: seq<string>)
    requires WellFormed(start) && WindowInRange(start, duration)
    ensures |stamps| == duration
  {
    TimesInRange(start, duration);
    Map(StampLabel, Times(start, duration))
  }

  /** The stamp at offset `d` is the label of `start + d` minutes. */
  lemma WindowStampsAt(start: DateTime, duration: nat, d: nat)
    requires WellFormed(start) && WindowInRange(start, duration) && d < duration
    ensures InRange(MinuteAt(start, d))
    ensures WindowStamps(start, duration)[d] == StampLabel(MinuteAt(start, d))
  {
    MinuteInRange(start, duration, d);
    TimesInRange(start, duration);
    MapAt(StampLabel, Times(start, duration), d);
    TimesAt(start, duration, d);
  }

  /** The stamps of a shorter window from the same start are the first stamps of a longer one. */
  lemma WindowStampsPrefix(start: DateTime, m: nat, n: nat)
    requires WellFormed(start) && WindowInRange(start, n) && m <= n
    ensures WindowInRange(start, m)
    ensures WindowStamps(start, n)[..m] == WindowStamps(start, m)
  {
    WindowShrinks(start, m, n);
    TimesInRange(start, n);
    MapPrefix(StampLabel, Times(start, n), m);
    TimesPrefix(start, m, n);
  }

  /** The selection of a window: the block of each minute, in minute order. */
  function Window(start: DateTime, duration: nat, freq: Option<string>, listing: seq<string>): seq<string>
    requires WellFormed(start) && WindowInRange(start, duration)
  {
    Select(WindowStamps(start, duration), freq, listing)
  }

  /** One more minute appends that minute's block. */
  lemma WindowStep(start: DateTime, n: nat, freq: Option<string>, listing: seq<string>)
    requires WellFormed(start) && MinuteAt(start, n).year <= MaxYear
    ensures WindowInRange(start, n) && WindowInRange(start, n + 1)
    ensures Window(start, n + 1, freq, listing)
      == Window(start, n, freq, listing) + Block(listing, StampLabel(MinuteAt(start, n)), freq)
  {
    WindowShrinks(start, n, n + 1);
    WindowStampsPrefix(start, n, n + 1);
    WindowStampsAt(start, n + 1, n);
    var stamps := WindowStamps(start, n + 1);
    assert stamps == stamps[..n] + [stamps[n]];
  }

  /**
   * The selection loop of `/preparefiles`. `None` stands for the
   * `OverflowError` Python raises when a minute of the window lies past year 9999.
   */
  method SelectKeys(start: DateTime, duration: nat, freq: Option<string>, listing: seq<string>)
    returns (r: Option<seq<string>>)
    requires InRange(start)
    ensures r.None? <==> !WindowInRange(start, duration)
    ensures r.Some? ==> WindowInRange(start, duration) && r.value == Window(start, duration, freq, listing)
  {
    var fileList: seq<string> := [];
    var delta := 0;
    while delta < duration
      invariant 0 <= delta <= duration
      invariant WindowInRange(start, delta)
      invariant fileList == Window(start, delta, freq, listing)
    {
      var findTime := MinuteAt(start, delta);
      if findTime.year > MaxYear {
        WindowOverflows(start, delta, duration);
        return None;
      }
      var findLabel := StampLabel(findTime);
      fileList := AppendMatches(fileList, listing, findLabel, freq);
      WindowStep(start, delta, freq, listing);
      delta := delta + 1;
    }
    return Some(fileList);
  }

  // ---------------------------------------------------------------------------
  // What a window's selection contains, and in which order
  // ---------------------------------------------------------------------------

  /**
   * The window selects a key exactly when the key is listed and, for some
   * minute `d` of the window, contains the label of `start + d` minutes (and
   * the frequency, when given).
   */
  lemma WindowMember(start: DateTime, duration: nat, freq: Option<string>, listing: seq<string>, k: string)
    requires WellFormed(start) && WindowInRange(start, duration)
    ensures k in Window(start, duration, freq, listing) <==>
      k in listing &&
      exists d: nat | d < duration && InRange(MinuteAt(start, d)) :: Matches(k, StampLabel(MinuteAt(start, d)), freq)
  {
    var stamps := WindowStamps(start, duration);
    SelectMember(stamps, freq, listing, k);
    forall d: nat | d < duration
      ensures InRange(MinuteAt(start, d)) && stamps[d] == StampLabel(MinuteAt(start, d))
    {
      WindowStampsAt(start, duration, d);
    }
  }

  /**
   * Offsets come in ascending order: the selection of a shorter window (same
   * start) is the beginning of the selection of a longer one.
   */
  lemma WindowPrefix(start: DateTime, m: nat, n: nat, freq: Option<string>, listing: seq<string>)
    requires WellFormed(start) && m <= n && WindowInRange(start, n)
    ensures WindowInRange(start, m)
    ensures |Window(start, m, freq, listing)| <= |Window(start, n, freq, listing)|
    ensures Window(start, n, freq, listing)[..|Window(start, m, freq, listing)|]
      == Window(start, m, freq, listing)
  {
    WindowStampsPrefix(start, m, n);
    SelectPrefix(WindowStamps(start, n), m, freq, listing);
  }
}

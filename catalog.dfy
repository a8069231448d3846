/**
 * Listing the bucket: the key prefix built by the `/filelist` and
 * `/preparefiles` handlers, the prefix listing the object store performs, and
 * the distinct frequency labels reported by `/freqlist`.
 */
module Catalog {
  import opened Optional
  import opened Text
  import opened Calendar

  predicate StartsWith(s: string, p: string)
  {
    |p| <= |s| && s[..|p|] == p
  }

  /**
   * The keys `list_objects_v2(Bucket=…, Prefix=prefix)` reports: the bucket's
   * keys that start with `prefix`, in the bucket's order. A reply without
   * `Contents` is the empty listing.
   */
  function ListKeys(bucket: seq<string>, prefix: string): (r: seq<string>)
    ensures forall k :: k in r <==> k in bucket && StartsWith(k, prefix)
    decreases |bucket|
  {
    if bucket == [] then []
    else
      var last := bucket[|bucket| - 1];
      ListKeys(bucket[..|bucket| - 1], prefix) + (if StartsWith(last, prefix) then [last] else [])
  }

  /** Listing two runs of keys lists the first and then the second: the store's order is kept. */
  lemma {:induction false} ListKeysAppend(a: seq<string>, b: seq<string>, prefix: string)
    ensures ListKeys(a + b, prefix) == ListKeys(a, prefix) + ListKeys(b, prefix)
    decreases |b|
  {
    if b != [] {
      var ab, init, last := a + b, b[..|b| - 1], b[|b| - 1];
      var tail := if StartsWith(last, prefix) then [last] else [];
      assert ab[..|ab| - 1] == a + init && ab[|ab| - 1] == last;
      calc {
        ListKeys(ab, prefix);
        ListKeys(a + init, prefix) + tail;
        { ListKeysAppend(a, init, prefix); }
        ListKeys(a, prefix) + ListKeys(init, prefix) + tail;
        ListKeys(a, prefix) + (ListKeys(init, prefix) + tail);
      }
    } else {
      assert a + b == a;
    }
  }

  /**
   * One `list_objects_v2` call returns at most this many keys, and none of
   * the handlers asks for a further page.
   */
  const MaxKeys: nat := 1000

  /** The page the handlers see: the first `MaxKeys` keys of the listing, or all of them when fewer. */
  function ListPage(bucket: seq<string>, prefix: string): (r: seq<string>)
    ensures |r| <= MaxKeys
    ensures |r| <= |ListKeys(bucket, prefix)| && r == ListKeys(bucket, prefix)[..|r|]
    ensures |r| < MaxKeys ==> r == ListKeys(bucket, prefix)
    ensures forall k | k in r :: k in bucket && StartsWith(k, prefix)
  {
    var all := ListKeys(bucket, prefix);
    if |all| <= MaxKeys then all else all[..MaxKeys]
  }

  /** The page is empty exactly when no key of the bucket has the prefix. */
  lemma ListPageEmpty(bucket: seq<string>, prefix: string)
    ensures ListPage(bucket, prefix) == [] <==> forall k | k in bucket :: !StartsWith(k, prefix)
  {
    var all := ListKeys(bucket, prefix);
    if all != [] {
      assert all[0] in all;
    }
  }

  /** A bucket whose every key has the prefix is listed whole, in order. */
  lemma {:induction false} ListKeysAll(bucket: seq<string>, prefix: string)
    requires forall k | k in bucket :: StartsWith(k, prefix)
    ensures ListKeys(bucket, prefix) == bucket
    decreases |bucket|
  {
    if bucket != [] {
      var init, last := bucket[..|bucket| - 1], bucket[|bucket| - 1];
      assert bucket == init + [last];
      ListKeysAll(init, prefix);
      assert StartsWith(last, prefix);
    }
  }

  /** The empty prefix lists the whole bucket. */
  lemma {:induction false} ListKeysEmptyPrefix(bucket: seq<string>)
    ensures ListKeys(bucket, "") == bucket
    decreases |bucket|
  {
    if bucket != [] {
      ListKeysEmptyPrefix(bucket[..|bucket| - 1]);
      assert bucket[..|bucket| - 1] + [bucket[|bucket| - 1]] == bucket;
    }
  }

  /**
   * The listing prefix of `/filelist`: nothing without a date, otherwise the
   * date as first path segment, followed by the frequency when there is one.
   */
  function FilePrefix(date: Option<string>, freq: Option<string>): string
  {
    match date
    case None => ""
    case Some(d) =>
      match freq
      case None => "/" + d
      case Some(f) => "/" + d + "/" + f
  }

  /**
   * The prefix puts the date into path segment 1 and the frequency into path
   * segment 2 (route values never hold '/'); without a date it is empty.
   */
  lemma FilePrefixSegments(date: Option<string>, freq: Option<string>)
    requires date.Some? ==> '/' !in date.value
    requires freq.Some? ==> '/' !in freq.value
    ensures date.None? ==> FilePrefix(date, freq) == ""
    ensures date.Some? && freq.None? ==> Split(FilePrefix(date, freq), '/') == ["", date.value]
    ensures date.Some? && freq.Some? ==>
      Split(FilePrefix(date, freq), '/') == ["", date.value, freq.value]
  {
    if date.Some? {
      var d := date.value;
      if freq.None? {
        assert Join(["", d], '/') == "/" + d;
        SplitJoin(["", d], '/');
      } else {
        var f := freq.value;
        assert Join(["", d, f], '/') == "/" + d + "/" + f by {
          assert Join(["", d, f][1..], '/') == d + "/" + f;
        }
        SplitJoin(["", d, f], '/');
      }
    }
  }

  /** The keys `/filelist/<date>[/<freq>]` reports. */
  function FileList(bucket: seq<string>, date: Option<string>, freq: Option<string>): seq<string>
  {
    ListPage(bucket, FilePrefix(date, freq))
  }

  /** Without a date `/filelist` reports the bucket from its first key, one page of it. */
  lemma FileListNoDate(bucket: seq<string>, freq: Option<string>)
    ensures FileList(bucket, None, freq) == if |bucket| <= MaxKeys then bucket else bucket[..MaxKeys]
  {
    ListKeysEmptyPrefix(bucket);
  }

  /**
   * Naming the frequency only narrows a date's listing: every key listed
   * under date and frequency lies under the date alone.
   */
  lemma FileListNarrows(bucket: seq<string>, date: string, freq: string, k: string)
    requires k in FileList(bucket, Some(date), Some(freq))
    ensures k in bucket && StartsWith(k, FilePrefix(Some(date), None))
  {
    var p := "/" + date;
    assert (p + "/" + freq)[..|p|] == p;
    assert k[..|p|] == k[..|p + "/" + freq|][..|p|];
  }

  /** `/preparefiles` lists under the start's `'%Y-%m-%d'` date, and the frequency when given. */
  function PreparePrefix(start: DateTime, freq: Option<string>): string
    requires InRange(start)
  {
    FilePrefix(Some(DateText(start)), freq)
  }

  /** The date segment of the prepare prefix is the zero-padded date of the start. */
  lemma PreparePrefixDate(start: DateTime, freq: Option<string>)
    requires InRange(start)
    requires freq.Some? ==> '/' !in freq.value
    ensures |Split(PreparePrefix(start, freq), '/')| >= 2
    ensures Split(PreparePrefix(start, freq), '/')[1] == DateText(start)
  {
    FilePrefixSegments(Some(DateText(start)), freq);
  }

  // ---------------------------------------------------------------------------
  // /freqlist/<date>
  // ---------------------------------------------------------------------------

  /** `key.split("/")[1]`, defined when the key holds a '/'. */
  function SecondSegment(key: string): string
    requires '/' in key
  {
    SplitHasSecond(key, '/');
    Split(key, '/')[1]
  }

  lemma SplitHasSecond(s: string, sep: char)
    requires sep in s
    ensures |Split(s, sep)| >= 2
  {
    JoinSplit(s, sep);
  }

  lemma SplitSecondHasSep(s: string, sep: char)
    requires |Split(s, sep)| >= 2
    ensures sep in s
  {
    JoinSplit(s, sep);
    var parts := Split(s, sep);
    assert s == parts[0] + [sep] + Join(parts[1..], sep);
    assert s[|parts[0]|] == sep;
  }

  /** `s.split(sep)[1]` exists exactly when `s` holds the separator. */
  lemma SplitSecondIff(s: string, sep: char)
    ensures |Split(s, sep)| >= 2 <==> sep in s
  {
    if sep in s {
      SplitHasSecond(s, sep);
    }
    if |Split(s, sep)| >= 2 {
      SplitSecondHasSep(s, sep);
    }
  }

  /** The distinct second segments of the keys. */
  function SegmentSet(keys: seq<string>): set<string>
    requires forall k | k in keys :: '/' in k
  {
    set k | k in keys :: SecondSegment(k)
  }

  /**
   * The `/freqlist/<date>` handler: list with the bare date as prefix, take
   * `key.split("/")[1]` of every key and deduplicate. `None` stands for the
   * `IndexError` a key without '/' raises; an empty listing yields no labels.
   */
  method FreqList(bucket: seq<string>, date: string) returns (r: Option<set<string>>)
    ensures r.Some? <==> forall k | k in ListPage(bucket, date) :: '/' in k
    ensures r.Some? ==> r.value == SegmentSet(ListPage(bucket, date))
    ensures ListPage(bucket, date) == [] ==> r == Some({})
  {
    var contents := ListPage(bucket, date);
    if contents == [] {
      return Some({});
    }
    var labels: seq<string> := [];
    var i := 0;
    while i < |contents|
      invariant 0 <= i <= |contents|
      invariant forall j | 0 <= j < i :: '/' in contents[j]
      invariant |labels| == i
      invariant forall j | 0 <= j < i :: labels[j] == SecondSegment(contents[j])
    {
      var parts := Split(contents[i], '/');
      if |parts| < 2 {
        if '/' in contents[i] {
          SplitHasSecond(contents[i], '/');
        }
        return None;
      }
      SplitSecondHasSep(contents[i], '/');
      labels := labels + [parts[1]];
      i := i + 1;
    }
    r := Some(set x | x in labels);
    assert forall x :: x in labels <==> x in SegmentSet(contents) by {
      forall x | x in SegmentSet(contents) ensures x in labels {
        var k :| k in contents && SecondSegment(k) == x;
        var j :| 0 <= j < |contents| && contents[j] == k;
        assert labels[j] == x;
      }
    }
  }

  /** The frequency labels depend only on which keys are listed, not on their order or repetition. */
  lemma SegmentSetOrderFree(xs: seq<string>, ys: seq<string>)
    requires forall k | k in xs :: '/' in k
    requires forall k :: k in xs <==> k in ys
    ensures SegmentSet(xs) == SegmentSet(ys)
  {
  }

  /**
   * `/freqlist` lists under the bare date while `/filelist` lists under
   * "/" + date: for a date that does not itself start with '/', no key is
   * reported by both.
   */
  lemma FreqAndFileListingsDisjoint(bucket: seq<string>, date: string, freq: Option<string>, k: string)
    requires date != [] && date[0] != '/'
    requires k in ListPage(bucket, date)
    ensures k !in FileList(bucket, Some(date), freq)
  {
    assert k[0] == date[0];
  }

  /**
   * For a key laid out as `/<date>/...`, as `/filelist` and `/preparefiles`
   * expect, `key.split("/")[1]` is the date, not the frequency label.
   */
  lemma SecondSegmentOfFileKey(date: string, rest: string)
    requires '/' !in date
    ensures SecondSegment("/" + date + "/" + rest) == date
  {
    var k := "/" + date + "/" + rest;
    assert k == [] + ['/'] + (date + ['/'] + rest);
    SplitCons([], '/', date + ['/'] + rest);
    SplitCons(date, '/', rest);
  }

  /**
   * For keys laid out as `/<date>/...` the bare-date prefix matches nothing,
   * so `/freqlist` reports the empty set.
   */
  lemma FreqListingOfLaidOutBucket(bucket: seq<string>, date: string)
    requires date != [] && date[0] != '/'
    requires forall k | k in bucket :: k != [] && k[0] == '/'
    ensures ListPage(bucket, date) == []
  {
    ListPageEmpty(bucket, date);
  }

  /**
   * A key stored without the leading '/', as `<date>/<freq>/<rest>`, is
   * listed under the bare date, and its segment 1 is the frequency.
   */
  lemma SecondSegmentOfBareKey(date: string, freq: string, rest: string)
    requires '/' !in date && '/' !in freq
    ensures StartsWith(date + "/" + freq + "/" + rest, date)
    ensures SecondSegment(date + "/" + freq + "/" + rest) == freq
  {
    var k := date + "/" + freq + "/" + rest;
    assert k == date + ['/'] + (freq + ['/'] + rest);
    assert k[..|date|] == date;
    SplitCons(date, '/', freq + ['/'] + rest);
    SplitCons(freq, '/', rest);
  }
}

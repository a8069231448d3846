/**
 * The staging directory on the server's disk: `/preparefiles` creates a
 * workspace and downloads the selected recordings into it, `/clear` removes
 * one workspace or all of them, and `/getaudiofile` serves a file from a
 * workspace, decoding a WAV from its Ogg sibling first.
 *
 * The directory is a map from workspace name to the names of the files in
 * it. The workspace name (a fresh `uuid1`) and the outcome of the external
 * decoder are parameters.
 */
module Staging {
  import opened Optional
  import opened Text
  import opened Calendar
  import opened Catalog
  import opened Selector
  import opened Config
  import opened Keys

  /** The directory every workspace is created in. */
  const TempDir: string := "/home/katsuwo/work/SDR_TEMP"

  /** `os.path.join(TEMPDIR, id, name)` for route values, which hold no '/'. */
  function FilePath(id: string, name: string): string
  {
    TempDir + "/" + id + "/" + name
  }

  // ---------------------------------------------------------------------------
  // /preparefiles
  // ---------------------------------------------------------------------------

  /** The manifest: `os.path.basename` of each selected key, in selection order. */
  function Basenames(keys: seq<string>): (names: seq<string>)
    ensures |names| == |keys|
    decreases |keys|
  {
    if keys == [] then [] else Basenames(keys[..|keys| - 1]) + [Basename(keys[|keys| - 1])]
  }

  /** The `i`-th manifest entry is the last path segment of the `i`-th selected key. */
  lemma {:induction false} BasenamesAt(keys: seq<string>, i: nat)
    requires i < |keys|
    ensures Basenames(keys)[i] == Basename(keys[i])
    ensures '/' !in Basenames(keys)[i]
    ensures keys[i][|keys[i]| - |Basenames(keys)[i]|..] == Basenames(keys)[i]
    decreases |keys|
  {
    if i < |keys| - 1 {
      var init := keys[..|keys| - 1];
      BasenamesAt(init, i);
      assert Basenames(keys)[i] == Basenames(init)[i] && init[i] == keys[i];
    }
    var b := Basename(keys[i]);
    assert keys[i][|keys[i]| - |b|..] == b;
  }

  function NameSet(names: seq<string>): set<string>
  {
    set n | n in names
  }

  /** How `/preparefiles` ends once past the configuration gate. */
  datatype PrepareOutcome =
    | Refused(body: string, status: nat)  // the configuration gate answered; nothing on disk changes
    | BadStartTime                        // `strptime` raised `ValueError` (HTTP 500)
    | NoContents                          // `{'Items': []}`, without the workspace name
    | WindowOverflow                      // a minute of the window lies past year 9999: `OverflowError` (HTTP 500)
    | Staged(items: seq<string>, id: string)  // `{'Items': items, 'uuid': id}`

  /** What `/preparefiles/<startText>/<duration>[/<freq>]` answers, for workspace name `id`. */
  function PrepareReply(settings: Settings, id: string, startText: string, duration: nat,
                        freq: Option<string>, bucket: seq<string>): PrepareOutcome
  {
    match GateReply(PrepareHandler, settings)
    case Refuse(body, status) => Refused(body, status)
    case Proceed => StageReply(id, startText, duration, freq, bucket)
  }

  /** The answer once the workspace exists: parse, list, select, download. */
  function StageReply(id: string, startText: string, duration: nat, freq: Option<string>,
                      bucket: seq<string>): PrepareOutcome
  {
    match ParseStart(startText)
    case None => BadStartTime
    case Some(start) =>
      var listing := ListPage(bucket, PreparePrefix(start, freq));
      if listing == [] then NoContents
      else if !WindowInRange(start, duration) then WindowOverflow
      else Staged(Basenames(Window(start, duration, freq, listing)), id)
  }

  /** The files the new workspace holds once the request is over. */
  function StagedFiles(outcome: PrepareOutcome): set<string>
  {
    if outcome.Staged? then NameSet(outcome.items) else {}
  }

  /**
   * Every manifest entry is the last path segment of a bucket key that lies
   * under the request's date (and frequency) and contains the stamp of one
   * of the window's minutes.
   */
  lemma PreparedFromBucket(settings: Settings, id: string, startText: string, duration: nat,
                           freq: Option<string>, bucket: seq<string>, i: nat)
    requires PrepareReply(settings, id, startText, duration, freq, bucket).Staged?
    requires i < |PrepareReply(settings, id, startText, duration, freq, bucket).items|
    ensures ParseStart(startText).Some?
    ensures
      var start := ParseStart(startText).value;
      var name := PrepareReply(settings, id, startText, duration, freq, bucket).items[i];
      exists k | k in bucket ::
        StartsWith(k, PreparePrefix(start, freq)) && Basename(k) == name &&
        exists d: nat | d < duration && InRange(MinuteAt(start, d)) :: Matches(k, StampLabel(MinuteAt(start, d)), freq)
  {
    var start := ParseStart(startText).value;
    var listing := ListPage(bucket, PreparePrefix(start, freq));
    var selected := Window(start, duration, freq, listing);
    BasenamesAt(selected, i);
    var k := selected[i];
    WindowMember(start, duration, freq, listing, k);
  }

  /**
   * The manifest has one entry per selected key: as many items as the window
   * selects, whether or not several keys share a last segment.
   */
  lemma PreparedCount(settings: Settings, id: string, startText: string, duration: nat,
                      freq: Option<string>, bucket: seq<string>)
    requires PrepareReply(settings, id, startText, duration, freq, bucket).Staged?
    ensures ParseStart(startText).Some?
    ensures
      var start := ParseStart(startText).value;
      var listing := ListPage(bucket, PreparePrefix(start, freq));
      WindowInRange(start, duration) &&
      |PrepareReply(settings, id, startText, duration, freq, bucket).items| == |Window(start, duration, freq, listing)|
  {
  }

  /**
   * The two recordings a minute apart: a two-minute request from
   * "2020-02-10_12-00" on 120_5MHz stages both, in minute order, and a
   * one-minute request the first only.
   */
  lemma NoonPrepared(settings: Settings, id: string)
    requires GateReply(PrepareHandler, settings).Proceed?
    ensures PrepareReply(settings, id, "2020-02-10_12-00", 2, Some("120_5MHz"), NoonKeys())
      == Staged(Basenames(NoonKeys()), id)
    ensures PrepareReply(settings, id, "2020-02-10_12-00", 1, Some("120_5MHz"), NoonKeys())
      == Staged(Basenames([NoonKeys()[0]]), id)
  {
    NoonText();
    NoonWindows();
    NoonListed();
  }

  /** Both recordings lie under the prefix of a 12:00 request on 120_5MHz. */
  lemma NoonListed()
    ensures ListPage(NoonKeys(), PreparePrefix(Noon, Some("120_5MHz"))) == NoonKeys()
  {
    NoonDate();
    ObjectKeyListed("2020-02-10", "120_5MHz", Noon, ".wav");
    ObjectKeyListed("2020-02-10", "120_5MHz", NoonPlusOne, ".wav");
    ListKeysAll(NoonKeys(), PreparePrefix(Noon, Some("120_5MHz")));
  }

  lemma NoonDate()
    ensures DateText(Noon) == "2020-02-10"
  {
  }

  // ---------------------------------------------------------------------------
  // /getaudiofile/<id>/<filename>
  // ---------------------------------------------------------------------------

  /** `filename.split('.')[1]`; `None` where Python raises `IndexError`. */
  function SecondDotField(filename: string): (r: Option<string>)
    ensures r.None? <==> '.' !in filename
  {
    SplitSecondIff(filename, '.');
    var parts := Split(filename, '.');
    if |parts| < 2 then None else Some(parts[1])
  }

  /** `s.replace(".wav", ".ogg")`. */
  function ToOgg(s: string): string
  {
    Replace(s, ".wav", ".ogg")
  }

  /**
   * The sibling path the handler tests is the path of the renamed file in
   * the renamed workspace: the replacement never spans a '/', and the staging
   * directory's own path holds no ".wav".
   */
  lemma SiblingPath(id: string, filename: string)
    ensures ToOgg(FilePath(id, filename)) == FilePath(ToOgg(id), ToOgg(filename))
  {
    StagingDirUnchanged();
    ToOggAcrossSlashes(TempDir, id, filename);
  }

  lemma ToOggAcrossSlashes(root: string, id: string, filename: string)
    requires ToOgg(root) == root
    ensures ToOgg(root + "/" + id + "/" + filename) == root + "/" + ToOgg(id) + "/" + ToOgg(filename)
  {
    assert root + "/" + id + "/" + filename == root + ['/'] + (id + ['/'] + filename);
    ReplaceAcross(root, '/', id + ['/'] + filename, ".wav", ".ogg");
    ReplaceAcross(id, '/', filename, ".wav", ".ogg");
  }

  /** A string without a '.' holds no ".wav" and is left as it is. */
  lemma ToOggWithoutDot(s: string)
    requires '.' !in s
    ensures ToOgg(s) == s
  {
    if Contains(s, ".wav") {
      var i: nat :| i <= |s| - 4 && OccursAt(s, ".wav", i);
      OccursAtChar(s, ".wav", i, i);
    }
    ReplaceAbsent(s, ".wav", ".ogg");
  }

  /** The staging directory's own path is not touched by the replacement. */
  lemma StagingDirUnchanged()
    ensures ToOgg(TempDir) == TempDir
  {
    assert '.' !in TempDir;
    ToOggWithoutDot(TempDir);
  }

  /** A name whose second dot-separated field is "wav" contains ".wav". */
  lemma WavFieldHasPattern(filename: string)
    requires SecondDotField(filename) == Some("wav")
    ensures Contains(filename, ".wav")
  {
    var parts := Split(filename, '.');
    JoinSplit(filename, '.');
    if |parts| == 2 {
      assert filename == parts[0] + ".wav" + [];
      ContainsMiddle(parts[0], ".wav", []);
    } else {
      var tail := Join(parts[2..], '.');
      assert Join(parts[1..], '.') == "wav" + ['.'] + tail;
      assert filename == parts[0] + ".wav" + (['.'] + tail);
      ContainsMiddle(parts[0], ".wav", ['.'] + tail);
    }
  }

  /** The reply of `/getaudiofile`. */
  datatype FetchReply =
    | Sent(name: string, mimetype: string)  // `send_file` of the requested path, as an attachment
    | NoSibling                             // "something bad7."
    | Failed                                // an uncaught error: `IndexError`, or `send_file` of a missing file (HTTP 500)

  /** A fetch's reply, whether the decoder was run, and the workspaces afterwards. */
  datatype Fetched = Fetched(reply: FetchReply, decoded: bool, after: map<string, set<string>>)

  predicate HasFile(dirs: map<string, set<string>>, id: string, name: string)
  {
    id in dirs && name in dirs[id]
  }

  /**
   * `/getaudiofile/<id>/<filename>` on the workspaces `dirs`: nothing without
   * the ".wav"-to-".ogg" sibling; for a "wav" name the decoder is run (and
   * writes the requested file when `decodeOk`), then the requested file is
   * sent as WAV; any other name is sent as it is, as Ogg.
   */
  function FetchSpec(dirs: map<string, set<string>>, id: string, filename: string, decodeOk: bool): Fetched
  {
    if !HasFile(dirs, ToOgg(id), ToOgg(filename)) then Fetched(NoSibling, false, dirs)
    else
      match SecondDotField(filename)
      case None => Fetched(Failed, false, dirs)
      case Some(field) =>
        if field == "wav" then
          (var after := if decodeOk && id in dirs then dirs[id := dirs[id] + {filename}] else dirs;
           Fetched(if HasFile(after, id, filename) then Sent(filename, "audio/wav") else Failed, true, after))
        else
          Fetched(if HasFile(dirs, id, filename) then Sent(filename, "audio/ogg") else Failed, false, dirs)
  }

  /**
   * A fetch only ever sends the requested file, and only when it exists by
   * then; it adds at most the requested file to the requested workspace.
   */
  lemma FetchSendsRequested(dirs: map<string, set<string>>, id: string, filename: string, decodeOk: bool)
    ensures var f := FetchSpec(dirs, id, filename, decodeOk);
      (f.reply.Sent? ==> f.reply.name == filename && HasFile(f.after, id, filename)) &&
      (f.after == dirs || (id in dirs && f.after == dirs[id := dirs[id] + {filename}])) &&
      (f.reply == NoSibling <==> !HasFile(dirs, ToOgg(id), ToOgg(filename)))
  {
  }

  /**
   * The decoder runs on every request for a "wav" name whose sibling exists,
   * also when an earlier request already produced the file; repeating a
   * fetch leaves the workspaces as the first one left them.
   */
  lemma FetchRepeated(dirs: map<string, set<string>>, id: string, filename: string, decodeOk: bool)
    ensures var first := FetchSpec(dirs, id, filename, decodeOk);
      var second := FetchSpec(first.after, id, filename, decodeOk);
      second.after == first.after && second.decoded == first.decoded && second.reply == first.reply
  {
    var first := FetchSpec(dirs, id, filename, decodeOk);
    if HasFile(dirs, ToOgg(id), ToOgg(filename)) && SecondDotField(filename) == Some("wav") && decodeOk && id in dirs {
      WavFieldHasPattern(filename);
      assert HasFile(first.after, ToOgg(id), ToOgg(filename));
    }
  }

  /**
   * For names that hold no ".wav", such as "x.ogg", the sibling is the file
   * itself: it is sent as Ogg exactly when it exists, and the decoder never
   * runs.
   */
  lemma FetchOggServesItself(dirs: map<string, set<string>>, id: string, filename: string, decodeOk: bool)
    requires !Contains(id, ".wav") && !Contains(filename, ".wav") && '.' in filename
    ensures FetchSpec(dirs, id, filename, decodeOk) ==
      Fetched(if HasFile(dirs, id, filename) then Sent(filename, "audio/ogg") else NoSibling, false, dirs)
  {
    ReplaceAbsent(id, ".wav", ".ogg");
    ReplaceAbsent(filename, ".wav", ".ogg");
    if SecondDotField(filename) == Some("wav") {
      WavFieldHasPattern(filename);
    }
  }

  /**
   * A WAV that is present but has no Ogg sibling is not served: the handler
   * answers "something bad7." without looking at the WAV itself.
   */
  lemma FetchWavNeedsOgg(dirs: map<string, set<string>>, id: string, stem: string, decodeOk: bool)
    requires !Contains(id, ".wav") && '.' !in stem
    requires HasFile(dirs, id, stem + ".wav") && !HasFile(dirs, id, stem + ".ogg")
    ensures FetchSpec(dirs, id, stem + ".wav", decodeOk) == Fetched(NoSibling, false, dirs)
  {
    ReplaceAbsent(id, ".wav", ".ogg");
    ReplaceSuffix(stem, ".wav", ".ogg");
  }

  /**
   * The decoding branch: with the Ogg sibling `stem.ogg` in the workspace, a
   * request for `stem.wav` runs the decoder, the workspace gains the WAV, and
   * the WAV is sent.
   */
  lemma FetchDecodes(dirs: map<string, set<string>>, id: string, stem: string)
    requires '.' !in stem && '.' !in id
    requires id in dirs && stem + ".ogg" in dirs[id]
    ensures FetchSpec(dirs, id, stem + ".wav", true)
      == Fetched(Sent(stem + ".wav", "audio/wav"), true, dirs[id := dirs[id] + {stem + ".wav"}])
  {
    ToOggWithoutDot(id);
    ReplaceSuffix(stem, ".wav", ".ogg");
    assert Join([stem, "wav"], '.') == stem + ".wav";
    SplitJoin([stem, "wav"], '.');
  }

  /** Replacing in `s + pat`, where `s` holds no character of the pattern's head, replaces the tail only. */
  lemma {:induction false} ReplaceSuffix(s: string, pat: string, rep: string)
    requires pat != [] && pat[0] !in s
    ensures Replace(s + pat, pat, rep) == s + rep
    decreases |s|
  {
    var sp := s + pat;
    if s == [] {
      assert sp[..|pat|] == pat;
      assert sp[|pat|..] == s;
    } else {
      assert sp[..|pat|][0] == s[0];
      assert sp[1..] == s[1..] + pat;
      ReplaceSuffix(s[1..], pat, rep);
      assert [s[0]] + (s[1..] + rep) == s + rep;
    }
  }

  // ---------------------------------------------------------------------------
  // /clear
  // ---------------------------------------------------------------------------

  /** The staging directory's path, segment by segment. */
  const TempDirSegments: seq<string> := ["home", "katsuwo", "work", "SDR_TEMP"]

  /**
   * The directory `rmtree(os.path.join(TEMPDIR, id))` acts on once the
   * operating system resolves the path, for a route value (which holds no
   * '/'): "" and "." name the staging directory itself, ".." its parent.
   * `rmtree` deletes every entry of that directory and then fails on its
   * final `rmdir`.
   */
  function ClearTarget(id: string): seq<string>
    requires '/' !in id
  {
    if id == "" || id == "." then TempDirSegments
    else if id == ".." then TempDirSegments[..|TempDirSegments| - 1]
    else TempDirSegments + [id]
  }

  /**
   * As written, `/clear/..` deletes the contents of the staging directory's
   * parent, the staging directory included, then fails; `/clear/.` deletes
   * the contents of the staging directory, hidden entries and all, then fails.
   */
  lemma ClearEscapesStaging()
    ensures |ClearTarget("..")| < |TempDirSegments|
    ensures TempDirSegments[..|ClearTarget("..")|] == ClearTarget("..")
    ensures ClearTarget(".") == TempDirSegments
  {
  }

  /** A name that denotes a workspace: one path segment, and neither "." nor "..". */
  predicate WorkspaceName(id: string)
  {
    id != "" && id != "." && id != ".." && '/' !in id
  }

  /**
   * The intended reach of `/clear/<id>`: the directory acted on is a child of
   * the staging directory exactly for workspace names.
   */
  lemma ClearTargetInside(id: string)
    requires '/' !in id
    ensures WorkspaceName(id) <==>
      |ClearTarget(id)| == |TempDirSegments| + 1 && ClearTarget(id)[..|TempDirSegments|] == TempDirSegments
  {
    if WorkspaceName(id) {
      assert (TempDirSegments + [id])[..|TempDirSegments|] == TempDirSegments;
    }
  }

  /** Names the glob over the staging directory does not report: those that start with a dot. */
  predicate Hidden(name: string)
  {
    |name| > 0 && name[0] == '.'
  }

  /** The workspaces left by `/clear`: the hidden entries only, untouched. */
  function ClearedAll(dirs: map<string, set<string>>): map<string, set<string>>
  {
    map id | id in dirs && Hidden(id) :: dirs[id]
  }

  /**
   * After `/clear`, clearing any workspace `/preparefiles` made fails; a
   * second `/clear` changes nothing.
   */
  lemma ClearedAllFinal(dirs: map<string, set<string>>, id: string)
    requires !Hidden(id)
    ensures id !in ClearedAll(dirs)
    ensures ClearedAll(ClearedAll(dirs)) == ClearedAll(dirs)
  {
  }

  /** The server's staging directory. */
  class StagingRoot {
    /** The workspaces under the staging directory, each with the names of its files. */
    var dirs: map<string, set<string>>

    constructor (existing: map<string, set<string>>)
      ensures dirs == existing
    {
      dirs := existing;
    }

    /**
     * `/preparefiles`: past the gate, purge and recreate workspace `id`,
     * parse the start, list, select, and download every selected key into
     * the workspace under its last path segment. Error exits leave the
     * workspace empty behind them.
     */
    method Prepare(settings: Settings, id: string, startText: string, duration: nat,
                   freq: Option<string>, bucket: seq<string>) returns (outcome: PrepareOutcome)
      modifies this
      ensures outcome == PrepareReply(settings, id, startText, duration, freq, bucket)
      ensures dirs == if outcome.Refused? then old(dirs) else old(dirs)[id := StagedFiles(outcome)]
    {
      var gate := GateReply(PrepareHandler, settings);
      if gate.Refuse? {
        return Refused(gate.body, gate.status);
      }
      MakeWorkspace(id);
      outcome := Stage(id, startText, duration, freq, bucket);
    }

    /** `rmtree` of a leftover workspace of the same name, then `os.mkdir`: the workspace starts empty. */
    method MakeWorkspace(id: string)
      modifies this
      ensures dirs == old(dirs)[id := {}]
    {
      if id in dirs {
        dirs := dirs - {id};
      }
      dirs := dirs[id := {}];
    }

    /** Everything after `os.mkdir`: parse, list, select and download into the empty workspace `id`. */
    method Stage(id: string, startText: string, duration: nat, freq: Option<string>, bucket: seq<string>)
      returns (outcome: PrepareOutcome)
      requires id in dirs && dirs[id] == {}
      modifies this
      ensures outcome == StageReply(id, startText, duration, freq, bucket)
      ensures dirs == old(dirs)[id := StagedFiles(outcome)]
    {
      var parsed := ParseStart(startText);
      if parsed.None? {
        assert dirs == dirs[id := {}];
        return BadStartTime;
      }
      var start := parsed.value;
      var listing := ListPage(bucket, PreparePrefix(start, freq));
      if listing == [] {
        assert dirs == dirs[id := {}];
        return NoContents;
      }
      var selected := SelectKeys(start, duration, freq, listing);
      if selected.None? {
        assert dirs == dirs[id := {}];
        return WindowOverflow;
      }
      var items := Download(id, selected.value);
      assert {} + NameSet(items) == NameSet(items);
      return Staged(items, id);
    }

    /** The download loop: fetch each key into workspace `id` under its last segment, and list those names. */
    method Download(id: string, keys: seq<string>) returns (names: seq<string>)
      requires id in dirs
      modifies this
      ensures names == Basenames(keys)
      ensures dirs == old(dirs)[id := old(dirs)[id] + NameSet(names)]
    {
      names := [];
      assert NameSet(names) == {};
      assert old(dirs)[id] + NameSet(names) == old(dirs)[id];
      var i := 0;
      while i < |keys|
        invariant 0 <= i <= |keys|
        invariant names == Basenames(keys[..i])
        invariant dirs == old(dirs)[id := old(dirs)[id] + NameSet(names)]
      {
        var name := Basename(keys[i]);
        assert dirs[id] + {name} == old(dirs)[id] + NameSet(names + [name]);
        dirs := dirs[id := dirs[id] + {name}];
        names := names + [name];
        assert keys[..i + 1][..i] == keys[..i];
        i := i + 1;
      }
      assert keys[..|keys|] == keys;
    }

    /**
     * `/clear/<id>`: `rmtree` of the workspace; it fails (HTTP 500) when
     * there is none. Names that are not workspace names are refused, so
     * that nothing outside a workspace is removed.
     */
    method Clear(id: string) returns (ok: bool)
      modifies this
      ensures ok <==> WorkspaceName(id) && id in old(dirs)
      ensures dirs == if ok then old(dirs) - {id} else old(dirs)
    {
      ok := WorkspaceName(id) && id in dirs;
      if ok {
        dirs := dirs - {id};
      }
    }

    /** `/clear`: `rmtree` of every entry the glob reports, in whatever order it reports them. */
    method ClearAll()
      modifies this
      ensures dirs == ClearedAll(old(dirs))
    {
      var pending := set id | id in dirs && !Hidden(id);
      while pending != {}
        invariant pending <= old(dirs).Keys
        invariant forall id | id in pending :: !Hidden(id)
        invariant dirs == map id | id in old(dirs) && (Hidden(id) || id in pending) :: old(dirs)[id]
        decreases |pending|
      {
        var victim :| victim in pending;
        dirs := dirs - {victim};
        pending := pending - {victim};
      }
    }

    /** `/getaudiofile/<id>/<filename>`, with the decoder's success as a parameter. */
    method Fetch(id: string, filename: string, decodeOk: bool) returns (reply: FetchReply, decoded: bool)
      modifies this
      ensures FetchSpec(old(dirs), id, filename, decodeOk) == Fetched(reply, decoded, dirs)
    {
      SiblingPath(id, filename);
      decoded := false;
      if !HasFile(dirs, ToOgg(id), ToOgg(filename)) {
        return NoSibling, decoded;
      }
      var field := SecondDotField(filename);
      if field.None? {
        return Failed, decoded;
      }
      if field.value == "wav" {
        decoded := true;
        if decodeOk && id in dirs {
          dirs := dirs[id := dirs[id] + {filename}];
        }
        reply := if HasFile(dirs, id, filename) then Sent(filename, "audio/wav") else Failed;
        return;
      }
      reply := if HasFile(dirs, id, filename) then Sent(filename, "audio/ogg") else Failed;
    }
  }
}

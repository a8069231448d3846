# SDR_Server request core in Dafny

SDR_Server is a small HTTP front end over an S3-compatible bucket of radio
recordings. Each recording is stored under a key of the form
`/<date>/<frequency>/<YYYY_MM_DD__HH_MM_SS>.<ext>`. This project models the
logic behind the server's routes, all of which live in `app.py`:

- `/filelist/<date>[/<freq>]` builds a listing prefix and reports the keys
  under it (module `Catalog`).
- `/freqlist/<date>` lists under the bare date and collects the second `/`
  segment of every key into a set (`Catalog.FreqList`).
- `/preparefiles/<start>/<duration>[/<freq>]` works in these steps:
  - it creates a fresh workspace under the staging directory;
  - it parses the start with `strptime('%Y-%m-%d_%H-%M')` (`Calendar`);
  - it lists the start's date (and frequency);
  - for every minute of the window, it selects the listed keys whose text
    contains that minute's `strftime('%Y_%m_%d__%H_%M_%S')` stamp, and the
    frequency when one is given (`Selector`);
  - it downloads the selected keys into the workspace under their last path
    segment, and answers with that manifest (`Staging.StagingRoot.Prepare`).
- `/getaudiofile/<id>/<filename>` serves a file from a workspace. It first
  checks that the name's `.wav`→`.ogg` sibling exists, and for a "wav" name it
  runs the Ogg decoder (`Staging.StagingRoot.Fetch`).
- `/clear[/<id>]` removes one workspace or every one the glob reports
  (`Staging.StagingRoot.Clear`, `Staging.StagingRoot.ClearAll`).
- `check_config` and `setup_S3_client` form the configuration gate every
  bucket-backed handler passes first, and each handler words a refusal in
  its own way (`Config`).

The staging directory is a class whose one field maps workspace names to the
set of file names in them; its methods update that map as the handlers update
the disk. The selection, the listing, the calendar arithmetic and the string
operations are pure functions. Each is tied to an independent description:
- CPython's ordinal day arithmetic for `timedelta`;
- membership characterisations for the listing and the selection;
- round trips for `split`/`join` and for `strftime`/`strptime`;
- specification functions that the loops of `/preparefiles`, `/freqlist`,
  `/clear` and the download are proved against.

## Model

| member | source | states |
|---|---|---|
| Text.Split | app.py:98-99 | `str.split` on one character: there is always at least one piece, and no piece holds the separator |
| Text.Basename | app.py:165-167 | `os.path.basename`: the result holds no '/', is a suffix of the path, and is preceded by a '/' whenever it is shorter than the path |
| Text.Contains | app.py:155-158 | `sub in s`: some window of `s` equals `sub`; the empty string is in every string |
| Text.Replace | app.py:176 | `str.replace`: every occurrence, left to right, without overlap; its behaviour is pinned by `Text.ReplaceAbsent`, `Text.ReplaceAcross` and `Staging.ReplaceSuffix` |
| Text.ReplaceAbsent | app.py:176 | `str.replace` leaves a string in which the pattern does not occur unchanged |
| Text.ReplaceAcross | app.py:176 | `str.replace` never matches across a character the pattern lacks, so it works on each side of a '/' separately |
| Text.Pad2Value | app.py:151 | the two zero-padded digits of `%m %d %H %M %S` are digits and read back as the number they render |
| Text.Pad4Value | app.py:151 | the four zero-padded digits of `%Y` are digits and read back as the year |
| Calendar.NextMinute | app.py:149-150 | adding one minute to a valid time gives a valid time with the same seconds |
| Calendar.AddMinutes | app.py:149-150 | `start + timedelta(minutes=n)` gives a valid time with the same seconds |
| Calendar.AddMinutesOrdinal | app.py:149-150 | the carried time lies exactly `n` minutes after the start on CPython's proleptic Gregorian ordinal time line |
| Calendar.OrdinalInjective | app.py:149-150 | two valid times with the same seconds and the same ordinal are equal |
| Calendar.AddMinutesIsUnique | app.py:149-150 | the only valid time `n` minutes after the start (same seconds) is `AddMinutes(start, n)`, so the carry model agrees with `datetime` |
| Calendar.AddMinutesDistinct | app.py:148-151 | different minute offsets of one start never give the same time |
| Calendar.DateText | app.py:132 | `strftime('%Y-%m-%d')` is ten characters with no '/' |
| Calendar.StampLabel | app.py:151 | `strftime('%Y_%m_%d__%H_%M_%S')`, the seven zero-padded fields joined by '_'; its shape, fields and injectivity are proved in the rows below |
| Calendar.StampFieldsValues | app.py:151 | the numeric fields of a stamp are digit strings that read back as the time's year, month, day, hour, minute and second |
| Calendar.StampLabelSplit | app.py:151 | splitting a stamp at '_' gives back its fields, including the empty one from the doubled underscore |
| Calendar.StampLabelInjective | app.py:151 | distinct times have distinct stamps |
| Calendar.StampLabelShape | app.py:151 | a stamp is 20 characters, each a digit or '_' |
| Calendar.ParseStart | app.py:131 | `strptime(s, '%Y-%m-%d_%H-%M')` either fails (`ValueError`) or gives a representable time with zero seconds |
| Calendar.StartTextSplit | app.py:131 | the zero-padded text of a time splits at '-' and then at '_' into exactly the five fields `strptime` reads |
| Calendar.ParseStartText | app.py:131 | parsing the zero-padded rendering of a minute-precision time gives that time back |
| Calendar.ParseStartNormalizes | app.py:131 | rendering a parsed start and parsing it again gives the same start |
| Catalog.ListKeys | app.py:49-51 | the store lists exactly the bucket's keys that start with the prefix |
| Catalog.ListKeysAppend | app.py:49-51 | listing keeps the store's key order: the listing of two runs of keys is the first listing followed by the second |
| Catalog.ListPage | app.py:139 | `list_objects_v2` returns at most 1000 keys, all from the bucket and under the prefix, as the start of the full listing, and the whole listing when fewer than 1000 keys match |
| Catalog.ListPageEmpty | app.py:143-145 | the reply has no `Contents` exactly when no key of the bucket has the prefix |
| Catalog.ListKeysAll | app.py:49-51 | a bucket whose every key has the prefix is listed whole and in order |
| Catalog.ListKeysEmptyPrefix | app.py:48-49 | listing without a prefix lists every key |
| Catalog.FilePrefix | app.py:43-47 | the `/filelist` prefix: empty, "/"+date, or "/"+date+"/"+freq; see `Catalog.FilePrefixSegments` |
| Catalog.FileList | app.py:41-60 | the keys `/filelist` reports: one page of the listing under its prefix |
| Catalog.FilePrefixSegments | app.py:43-47 | the `/filelist` prefix is empty without a date; otherwise the date is path segment 1 and the frequency, when given, segment 2 |
| Catalog.FileListNoDate | app.py:48-49 | without a date the handler reports the bucket from its first key, one page of it; both routes bind a date (app.py:28-29), so this branch is not reachable over HTTP |
| Catalog.FileListNarrows | app.py:44-51 | every key listed under a date and a frequency lies in the bucket under the date alone |
| Catalog.PreparePrefix | app.py:132-138 | the `/preparefiles` prefix: "/" + the start's `%Y-%m-%d`, then "/"+freq when given |
| Catalog.PreparePrefixDate | app.py:132-138 | path segment 1 of the `/preparefiles` prefix is the start's zero-padded date |
| Catalog.SplitSecondIff | app.py:99 | `key.split("/")[1]` exists exactly when the key holds a '/' |
| Catalog.SegmentSet | app.py:98-100 | the set of `key.split("/")[1]` over the listed keys: the reference `/freqlist`'s loop is proved against |
| Catalog.FreqList | app.py:91-100 | `/freqlist` fails (`IndexError`) exactly when a listed key has no '/'; otherwise it returns the set of second segments of the keys listed under the bare date, and the empty set for an empty listing |
| Catalog.SegmentSetOrderFree | app.py:100 | the frequency set depends only on which keys are listed, not on their order or repetition |
| Catalog.FreqAndFileListingsDisjoint | app.py:92 | the bare-date prefix of `/freqlist` and the "/"+date prefix of `/filelist` never list the same key |
| Catalog.SecondSegmentOfFileKey | app.py:99 | for a key laid out as `/<date>/...`, segment 1 is the date, not the frequency |
| Catalog.FreqListingOfLaidOutBucket | app.py:92-96 | when every key starts with '/', the bare-date listing is empty, so `/freqlist` answers the empty set |
| Catalog.SecondSegmentOfBareKey | app.py:92-99 | a key stored as `<date>/<freq>/<rest>` is listed under the bare date and its segment 1 is the frequency |
| Selector.Matches | app.py:154-159 | the per-key test: the key contains the stamp and, when a frequency is given, the frequency |
| Selector.Block | app.py:153-159 | the listed keys matching one stamp, in listing order; see `Selector.BlockMember` and `Selector.BlockCount` |
| Selector.Select | app.py:148-159 | the blocks of a run of stamps one after another; see `Selector.SelectMember`, `Selector.SelectPrefix` and `Selector.SelectCount` |
| Selector.Window | app.py:148-159 | the selection for the stamps of `start + d` minutes, `d` ascending; see `Selector.WindowMember` and `Selector.WindowStep` |
| Selector.AppendMatches | app.py:153-159 | one pass over the listing appends exactly the block of keys that contain the stamp (and the frequency when given), in listing order |
| Selector.BlockMember | app.py:153-159 | a key is in one minute's block exactly when it is listed and matches that minute |
| Selector.BlockAppend | app.py:153-159 | within a minute the listing order is kept: the block of a split listing is the two blocks in turn |
| Selector.BlockCount | app.py:153-159 | a block holds each matching key as often as the listing does, and no other key |
| Selector.SelectMember | app.py:148-159 | soundness and completeness: a key is selected exactly when it is listed and matches one of the stamps |
| Selector.SelectPrefix | app.py:148-159 | the selection for the first stamps is the beginning of the whole selection |
| Selector.SelectCount | app.py:148-159 | no deduplication: a key occurs as often as it is listed, times the number of stamps it matches |
| Selector.FrequencyTestRedundant | app.py:154-159 | when every listed key contains the frequency, the frequency test changes nothing |
| Selector.YearsMoveForward | app.py:149-150 | later offsets never move to an earlier year |
| Selector.WindowShrinks | app.py:148-150 | a window whose minutes are all representable stays so when it is shortened |
| Selector.MinuteInRange | app.py:148-150 | every minute of such a window is a time `datetime` can represent |
| Selector.WindowOverflows | app.py:148-150 | a minute past year 9999 anywhere in the window means the window is not representable |
| Selector.TimesInRange | app.py:148-150 | every time of a representable window is in range |
| Selector.WindowStampsAt | app.py:148-151 | the `d`-th stamp of a window is the stamp of `start + d` minutes |
| Selector.WindowStampsPrefix | app.py:148-151 | the stamps of a shorter window are the beginning of those of a longer one |
| Selector.WindowStep | app.py:148-159 | one more minute appends exactly that minute's block to the selection |
| Selector.SelectKeys | app.py:148-159 | the selection loop fails (`OverflowError`) exactly when some minute lies past year 9999, and otherwise returns the window's selection |
| Selector.WindowMember | app.py:148-159 | a key is selected exactly when it is listed and contains the stamp of some minute of the window (and the frequency when given) |
| Selector.WindowPrefix | app.py:148-159 | minutes come in ascending order: the selection of a shorter window is the beginning of that of a longer one |
| Keys.ObjectKeyListed | app.py:136-139 | a key `/<date>/<freq>/<stamp><ext>` lies under both the date prefix and the date-and-frequency prefix |
| Keys.ObjectKeyStamp | app.py:155-158 | a key laid out that way contains the stamp of a time exactly when that time is its own |
| Keys.WindowSelectsOwnMinute | app.py:148-159 | such a key is selected exactly when it is listed and its own minute is one of the window's |
| Keys.NoonText | app.py:131 | "2020-02-10_12-00" parses to 12:00 on 2020-02-10 |
| Keys.NoonFrequency | app.py:155 | an example key contains its frequency segment |
| Keys.NoonStamps | app.py:155 | each of the two example recordings matches its own minute's stamp and not the other's |
| Keys.NoonBlocks | app.py:153-156 | each example minute's block holds that minute's recording only |
| Keys.NoonWindows | app.py:148-159 | from 12:00 on 120_5MHz a two-minute window selects both recordings in minute order, and a one-minute window the first only |
| Config.CheckConfig | app.py:196-204 | `check_config` raises exactly when the section or one of its three credential fields is missing |
| Config.FirstMissing | app.py:199-204 | the first field, in the tested order, that the section lacks; none exactly when all are present |
| Config.CheckConfigNamesFirstGap | app.py:196-204 | the message names the missing section, or else the first missing field in the order tested |
| Config.GateReply | app.py:31-39 | a handler proceeds exactly when the configuration is complete and also names the endpoint URL |
| Config.GateMessagePassedThrough | app.py:79-87 | `/filelist` and `/preparefiles` pass `check_config`'s message through with status 200, while `/freqlist` answers 400 |
| Config.GateSecuresBucketName | app.py:196-204 | past the gate, the bucket-name lookup the handlers make next cannot fail |
| Staging.PrepareReply | app.py:112-168 | the reply of `/preparefiles`: the gate's refusal, or `Staging.StageReply`; `Staging.PreparedFromBucket`, `Staging.PreparedCount` and `Staging.NoonPrepared` state its properties |
| Staging.StageReply | app.py:131-168 | `ValueError` for a bad start, `{'Items': []}` without `Contents`, `OverflowError` past year 9999, else the manifest of the window's selection |
| Staging.Basenames | app.py:162-167 | the manifest has one entry per selected key |
| Staging.BasenamesAt | app.py:165-167 | the `i`-th manifest entry is the last path segment of the `i`-th selected key, holds no '/', and ends that key |
| Staging.PreparedFromBucket | app.py:134-167 | every manifest entry is the last segment of a bucket key under the request's prefix that contains the stamp of one of the window's minutes |
| Staging.PreparedCount | app.py:162-168 | a staged manifest has as many entries as the window selects keys |
| Staging.NoonPrepared | app.py:112-168 | for the example bucket, a two-minute request from "2020-02-10_12-00" on 120_5MHz stages both recordings in order, and a one-minute request the first only |
| Staging.NoonListed | app.py:136-139 | both example recordings lie under the prefix of that request |
| Staging.FilePath | app.py:173-174 | `os.path.join(TEMPDIR, id, filename)` for route values |
| Staging.ToOgg | app.py:176 | `s.replace(".wav", ".ogg")`; see `Staging.SiblingPath` |
| Staging.SecondDotField | app.py:177 | `filename.split('.')[1]` fails (`IndexError`) exactly when the name holds no '.' |
| Staging.SiblingPath | app.py:173-176 | the sibling path tested is the renamed file in the renamed workspace under the staging directory |
| Staging.ToOggAcrossSlashes | app.py:176 | the `.wav`→`.ogg` replacement over a joined path replaces in each segment separately |
| Staging.ToOggWithoutDot | app.py:176 | a name without '.' is left unchanged by the replacement |
| Staging.StagingDirUnchanged | app.py:173-176 | the staging directory's own path is not changed by the replacement |
| Staging.WavFieldHasPattern | app.py:176-177 | a name whose second dot field is "wav" contains ".wav" |
| Staging.FetchSpec | app.py:172-183 | the fetch decision table: no sibling, `IndexError`, decode then send as WAV, or send as Ogg; its branches are stated by the four lemmas below |
| Staging.FetchDecodes | app.py:176-181 | with `stem.ogg` in the workspace, a request for `stem.wav` runs the decoder, the workspace gains the WAV, and it is sent as `audio/wav` |
| Staging.FetchSendsRequested | app.py:172-183 | a fetch sends only the requested file and only when it exists by then; it adds at most that file to that workspace; it answers "something bad7." exactly when the sibling is missing |
| Staging.FetchRepeated | app.py:176-181 | the decoder runs again on every repeated request, and repeating a fetch leaves the workspaces as the first fetch left them |
| Staging.FetchOggServesItself | app.py:176-182 | for a name holding no ".wav", the sibling is the file itself: it is sent as Ogg exactly when it exists, and the decoder never runs |
| Staging.FetchWavNeedsOgg | app.py:176-183 | a WAV that is present but has no Ogg sibling is refused with "something bad7." |
| Staging.ReplaceSuffix | app.py:176 | replacing in `s` + pattern, where `s` lacks the pattern's first character, replaces only the trailing pattern |
| Staging.ClearedAll | app.py:70-73 | the reference for `/clear`: exactly the dot-named entries remain, untouched |
| Staging.ClearTarget | app.py:66-68 | the directory `rmtree(os.path.join(TEMPDIR, id))` acts on as written: the staging directory for ".", its parent for ".." |
| Staging.ClearEscapesStaging | app.py:66-68 | as written, `/clear/..` acts on an ancestor of the staging directory, deleting the contents of the parent (the staging directory included) before it fails, and `/clear/.` acts on the staging directory itself, deleting all its contents before it fails |
| Staging.ClearTargetInside | app.py:66-68 | the directory acted on is a child of the staging directory exactly for workspace names |
| Staging.ClearedAllFinal | app.py:70-73 | after `/clear` no workspace `/preparefiles` made is left, and a second `/clear` changes nothing |
| Staging.StagingRoot.Prepare | app.py:124-168 | `/preparefiles` answers as `PrepareReply`; a refusal at the gate leaves the disk alone, and any other outcome leaves workspace `id` holding exactly the staged names |
| Staging.StagingRoot.MakeWorkspace | app.py:124-129 | any old workspace of that name is removed and an empty one is created |
| Staging.StagingRoot.Stage | app.py:131-168 | parse, list, select and download; the outcome is `StageReply`, and only workspace `id` changes |
| Staging.StagingRoot.Download | app.py:162-167 | the names are the basenames of the keys in order, and the workspace gains exactly those names |
| Staging.StagingRoot.Clear | app.py:66-69 | `/clear/<id>` succeeds exactly for an existing workspace with a workspace name, removes exactly it, and otherwise changes nothing (the corrected behaviour, see Findings) |
| Staging.StagingRoot.ClearAll | app.py:70-73 | every entry the glob reports is removed, in any order, and nothing else changes |
| Staging.StagingRoot.Fetch | app.py:172-183 | `/getaudiofile` replies, decodes and changes the workspaces exactly as `FetchSpec` says |

## Where the model follows app.py over the documented design

- `/freqlist` lists with the bare date as prefix (no leading '/') and takes
  segment 1 of each key. For keys laid out as `/<date>/<freq>/...` that prefix
  matches nothing, so `/freqlist` answers the empty set
  (`Catalog.FreqListingOfLaidOutBucket`). It reports frequencies only for keys
  stored without the leading '/' (`Catalog.SecondSegmentOfBareKey`). A listed
  key without '/' makes the handler fail.
- `/getaudiofile` runs the decoder on every request for a "wav" name whose Ogg
  sibling exists. It does not check whether an earlier request already
  decoded it.
- In the Ogg branch, the handler sends the requested path itself, not the
  sibling. A WAV without an Ogg sibling is refused even when the WAV is present.
- The list operation returns one page of at most 1000 keys. Beyond that, the
  keys are not seen by any handler.
- A start whose window runs past year 9999 raises `OverflowError` in the middle
  of the selection loop. The workspace has already been created empty.

## Findings

| source | as written | input that shows it | evidently intended | confidence | as-written member | corrected member |
|---|---|---|---|---|---|---|
| app.py:66-68 | `/clear/<uuid_>` runs `rmtree` on `os.path.join(TEMPDIR, uuid_)` for any route value | `/clear/..` deletes the contents of the staging directory's parent, the staging directory included, then fails (500); from then on every `/preparefiles` fails at `os.mkdir` (app.py:129). `/clear/.` deletes the contents of the staging directory, hidden entries included, then fails (500) | remove only a workspace inside the staging directory, refusing "." and ".." | not executed | Staging.ClearEscapesStaging | Staging.StagingRoot.Clear |

## Left out

- HTTP, Flask routing and JSON rendering: replies are modelled as values.
  Uncaught exceptions, which Flask answers with status 500, become error
  outcomes.
- The bucket's `ClientError` paths (`something bad4.`, `something bad8.`, the
  `e.args[0]` of `/preparefiles`) and failed downloads: the object store is a
  sequence of keys that always answers.
- Reading and parsing the YAML file: the configuration is given as a map
  from section names to their field names. A file that is not a mapping is
  not modelled, nor is a section that is not a mapping. When the fields under
  `S3_STORAGE:` are mis-indented, the section loads as `None`, and the test at
  app.py:199 raises `TypeError` rather than `ValueError`. The handlers then
  answer `something bad3.` with 500, `something bad2.` with 400, and
  "something bad6.". `Config.CheckConfig` and `Config.GateReply` instead give
  the missing-field message with status 200.
- The key order of the object store: the bucket sequence is taken to be in
  the store's own order.
- `uuid1`: the workspace name is a parameter of `Staging.StagingRoot.Prepare`.
- The `oggdec` subprocess: its success is the parameter `decodeOk`. Splitting
  its command line at spaces is not modelled.
- `print` calls, the hello-world route, and the JSON encoder subclass, whose `ObjectId` case
  never arises: the replies are modelled as values.
- Concurrency between requests.
- File contents: a workspace is the set of names in it.
- Staging.StagingRoot.Download: two selected keys with the same last segment
  leave one file. The manifest still lists both. Which download wins is not
  modelled.
- Catalog.FreqList: the result is a set. The order in which `list(set(...))`
  yields the labels is not modelled.
- Staging.StagingRoot.ClearAll: glob entries that are plain files rather than
  directories are not distinguished.
- Staging.StagingRoot.Clear: models the corrected behaviour, which refuses ""
  "." and ".." (see Findings). As written, `rmtree` would resolve those names
  to the staging directory or its parent and delete its contents before
  failing; `Staging.ClearTarget` records where it would act.
- Staging.StagingRoot.Fetch: a workspace or file name of "." or ".." is
  treated as an ordinary name that is absent from the map. In the source such
  names resolve outside the workspace: `/getaudiofile/../x.ogg` serves a file
  beside the staging directory, and a file name of ".." sends a directory and
  fails.
- Config.GateReply: the configuration holds field names only, so failures of
  `setup_S3_client` that depend on field values are not modelled. A credential
  that is not a string (YAML `null` or a number) makes the `os.environ`
  assignment raise `TypeError`. A malformed endpoint makes `boto3.client`
  raise `ValueError`, which `/filelist` and `/preparefiles` return as the
  reply with status 200.
- Calendar.ParseStart: only ASCII digits are accepted. The Unicode decimal
  digits that CPython's `\d` also matches are not modelled.
- Calendar.StampLabel and Calendar.DateText: years below 1000 are written with
  four digits. The platform `strftime` may write fewer.

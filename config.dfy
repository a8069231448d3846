/**
 * The configuration gate every S3-backed handler passes first: the
 * `S3_STORAGE` section and its three credential fields must be present, and
 * building the client further needs `S3_endpoint_url`.
 */
module Config {
  import opened Optional

  /** The parsed YAML file: each top-level section with the names of the fields it holds. */
  type Settings = map<string, set<string>>

  const Section: string := "S3_STORAGE"
  const AccessKey: string := "S3_access_key_id"
  const SecretKey: string := "S3_secret_access_key"
  const BucketName: string := "S3_bucket_name"
  const EndpointUrl: string := "S3_endpoint_url"

  /** The fields `check_config` demands, in the order it tests them. */
  const Required: seq<string> := [AccessKey, SecretKey, BucketName]

  const NoSectionMessage: string := "S3_STORAGE Section not exists in config file."

  /** The message `check_config` raises for a missing field of the section. */
  function MissingFieldMessage(field: string): string
  {
    field + " element not exists in S3_STORAGE section."
  }

  /** The section holds every required field. */
  predicate Complete(settings: Settings)
  {
    Section in settings && forall f | f in Required :: f in settings[Section]
  }

  /**
   * `check_config`: the message of the `ValueError` it raises, or `None` when
   * it returns normally.
   */
  function CheckConfig(settings: Settings): (r: Option<string>)
    ensures r.None? <==> Complete(settings)
  {
    if Section !in settings then Some(NoSectionMessage)
    else if AccessKey !in settings[Section] then Some(MissingFieldMessage(AccessKey))
    else if SecretKey !in settings[Section] then Some(MissingFieldMessage(SecretKey))
    else if BucketName !in settings[Section] then Some(MissingFieldMessage(BucketName))
    else None
  }

  /** The first of `fields` that `present` lacks. */
  function FirstMissing(present: set<string>, fields: seq<string>): (r: Option<string>)
    ensures r.None? <==> forall f | f in fields :: f in present
    ensures r.Some? ==> r.value in fields && r.value !in present
    decreases |fields|
  {
    if fields == [] then None
    else if fields[0] !in present then Some(fields[0])
    else FirstMissing(present, fields[1..])
  }

  /**
   * The message names the section when it is missing, and otherwise the
   * first required field, in the tested order, that the section lacks.
   */
  lemma CheckConfigNamesFirstGap(settings: Settings)
    ensures Section !in settings ==> CheckConfig(settings) == Some(NoSectionMessage)
    ensures Section in settings ==>
      match FirstMissing(settings[Section], Required)
      case None => CheckConfig(settings) == None
      case Some(f) => CheckConfig(settings) == Some(MissingFieldMessage(f))
  {
    if Section in settings {
      var present := settings[Section];
      assert Required[1..] == [SecretKey, BucketName];
      assert Required[1..][1..] == [BucketName];
      assert Required[1..][1..][1..] == [];
    }
  }

  /** The handlers behind the gate; each words a refusal in its own way. */
  datatype Handler = FileListHandler | FreqListHandler | PrepareHandler

  /** What a handler does after the gate: go on, or answer at once with this body and status. */
  datatype Gate = Proceed | Refuse(body: string, status: nat)

  /** `json.dumps({'message': text})`. */
  function MessageJson(text: string): string
  {
    "{\"message\": \"" + text + "\"}"
  }

  /**
   * `check_config` then `setup_S3_client` inside the handler's `try`: a
   * `ValueError` from the check, or the `KeyError` of a missing endpoint
   * field, is turned into the handler's reply. A bare string return is
   * served with status 200.
   */
  function GateReply(handler: Handler, settings: Settings): (g: Gate)
    ensures g.Proceed? <==> Complete(settings) && EndpointUrl in settings[Section]
  {
    match CheckConfig(settings)
    case Some(message) =>
      (match handler
       case FileListHandler => Refuse(message, 200)
       case FreqListHandler => Refuse(MessageJson("something bad1."), 400)
       case PrepareHandler => Refuse(message, 200))
    case None =>
      if EndpointUrl in settings[Section] then Proceed
      else
        match handler
        case FileListHandler => Refuse(MessageJson("something bad3."), 500)
        case FreqListHandler => Refuse(MessageJson("something bad2."), 400)
        case PrepareHandler => Refuse("something bad6.", 200)
  }

  /**
   * `/filelist` and `/preparefiles` pass the check's message through
   * unchanged, while `/freqlist` replaces it by a fixed reply.
   */
  lemma GateMessagePassedThrough(settings: Settings)
    requires !Complete(settings)
    ensures GateReply(FileListHandler, settings) == Refuse(CheckConfig(settings).value, 200)
    ensures GateReply(PrepareHandler, settings) == GateReply(FileListHandler, settings)
    ensures GateReply(FreqListHandler, settings).status == 400
  {
  }

  /** Past the gate, the bucket-name lookup the handlers make next cannot fail. */
  lemma GateSecuresBucketName(handler: Handler, settings: Settings)
    requires GateReply(handler, settings).Proceed?
    ensures Section in settings && BucketName in settings[Section]
  {
    assert BucketName in Required;
  }
}

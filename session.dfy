// Session control of the APPA driver (src/hardware/appa-dmm/protocol.c):
// channel capabilities, identification strings, the live and storage
// acquisition callbacks with their request latch and error counter, the
// processing of one page of stored records, and clearing the context.
// Serial I/O, the session sink and the limit check are inputs; the limit
// check is the set `limitHit` of sample counts at which
// `sr_sw_limits_check` reports the limits reached.

module Session {
  import opened Bytes
  import opened Catalog
  import opened Transform
  import Codec
  import Storage
  import Transport

  /** A C `int` used both as a truth value and as a status. */
  datatype CInt = CTrue | CFalse | Code(status: Status)

  /** What `if (x)` makes of such a value: anything but FALSE counts. */
  predicate Truthy(c: CInt)
  {
    c != CFalse
  }

  /** `retr < SR_OK` for a status. */
  predicate Failed(s: Status)
  {
    s != Ok
  }

  /** `retr < SR_OK` for a C value: an error code; FALSE is SR_OK and passes. */
  predicate BelowOk(r: CInt)
  {
    r.Code? && Failed(r.status)
  }

  /**
   * `retr < TRUE` for a C value: everything but TRUE, as FALSE and SR_OK
   * are 0 and every error code is negative.
   */
  predicate BelowTrue(r: CInt)
  {
    r != CTrue
  }

  // ---------------------------------------------------------------------
  // Channel capabilities
  // ---------------------------------------------------------------------

  /** Models whose secondary display `appadmm_cap_channel` reports as TRUE. */
  const DualDisplayModels: set<nat> := {Model208, Model208B, Model501, Model502, Model503, Model505,
                                        Model506, Model506B, Model506B2}

  /** Models whose secondary display `appadmm_cap_channel` reports as FALSE. */
  const SingleDisplayModels: set<nat> := {Model150, Model150B, Model172, Model173, Model175, Model177,
                                          Model179, ModelSflex10A, ModelSflex18A, ModelA17N,
                                          ModelS0, ModelS1, ModelS2, ModelS3}

  /**
   * `appadmm_cap_channel`: the primary display always exists, the invalid
   * channel never does; the secondary display is TRUE or FALSE for the
   * listed models and SR_ERR_NA for every other model id.
   */
  function CapChannel(model: nat, channel: Channel): CInt
  {
    match channel
    case ChannelInvalid => CFalse
    case Primary => CTrue
    case Secondary =>
      if model == Model208 || model == Model208B || model == Model501 || model == Model502
         || model == Model503 || model == Model505 || model == Model506 || model == Model506B
         || model == Model506B2
      then CTrue
      else if model == Model150 || model == Model150B || model == Model172 || model == Model173
              || model == Model175 || model == Model177 || model == Model179 || model == ModelSflex10A
              || model == ModelSflex18A || model == ModelA17N || model == ModelS0 || model == ModelS1
              || model == ModelS2 || model == ModelS3
      then CFalse
      else Code(ErrNa)
  }

  /** The capability table, by channel and by model list. */
  lemma CapChannelTable(model: nat, channel: Channel)
    ensures channel == ChannelInvalid ==> CapChannel(model, channel) == CFalse
    ensures channel == Primary ==> CapChannel(model, channel) == CTrue
    ensures channel == Secondary ==>
              && (CapChannel(model, channel) == CTrue <==> model in DualDisplayModels)
              && (CapChannel(model, channel) == CFalse <==> model in SingleDisplayModels)
              && (CapChannel(model, channel) == Code(ErrNa) <==> model !in DualDisplayModels + SingleDisplayModels)
  {
  }

  /** A dual-display model has its secondary channel. */
  lemma DualShowsSecondary(model: nat)
    requires model in DualDisplayModels
    ensures CapChannel(model, Secondary) == CTrue
  {
    CapChannelTable(model, Secondary);
  }

  /**
   * At the call sites the SR_ERR_NA answer counts as TRUE: the secondary
   * display is shown for every model except the single-display ones,
   * including an unknown or invalid model id.
   */
  lemma ShownChannels(model: nat)
    ensures Truthy(CapChannel(model, Primary))
    ensures Truthy(CapChannel(model, Secondary)) <==> model !in SingleDisplayModels
    ensures Truthy(CapChannel(ModelInvalid, Secondary))
  {
    CapChannelTable(model, Secondary);
  }

  // ---------------------------------------------------------------------
  // Identification
  // ---------------------------------------------------------------------

  /** `g_strrstr(s, " ")`: the position of the last space, if any. */
  function LastSpace(s: string): (r: Option<nat>)
    ensures r.None? <==> ' ' !in s
    ensures r.Some? ==> r.value < |s| && s[r.value] == ' ' && ' ' !in s[r.value + 1..]
  {
    if |s| == 0 then None
    else if s[|s| - 1] == ' ' then Some(|s| - 1)
    else
      var r := LastSpace(s[..|s| - 1]);
      assert s == s[..|s| - 1] + [s[|s| - 1]];
      if r.Some? then
        assert s[r.value + 1..] == s[..|s| - 1][r.value + 1..] + [s[|s| - 1]];
        r
      else r
  }

  /**
   * Vendor and model from the model name: without a space (an empty name
   * included) the vendor is "APPA" and the model the whole name; otherwise
   * they are the parts before and after the last space.
   */
  function SplitName(name: string): (r: (string, string))
    ensures ' ' !in name ==> r == ("APPA", name)
    ensures ' ' in name ==> r.0 + " " + r.1 == name && ' ' !in r.1
  {
    match LastSpace(name)
    case None => ("APPA", name)
    case Some(i) =>
      assert name == name[..i] + [name[i]] + name[i + 1..];
      (name[..i], name[i + 1..])
  }

  /** The character of one decimal digit. */
  function Digit(d: nat): (c: char)
    requires d < 10
    ensures '0' <= c <= '9'
  {
    ('0' as int + d) as char
  }

  function DigitValue(c: char): nat
  {
    if '0' <= c <= '9' then c as int - '0' as int else 0
  }

  /** `%d` of a non-negative number: its decimal digits, no leading zero. */
  function Decimal(n: nat): (s: string)
    ensures |s| >= 1
    ensures forall i :: 0 <= i < |s| ==> '0' <= s[i] <= '9'
  {
    if n < 10 then [Digit(n)] else Decimal(n / 10) + [Digit(n % 10)]
  }

  /** Reads a string of decimal digits back as a number. */
  function ParseDecimal(s: string): nat
  {
    if |s| == 0 then 0 else 10 * ParseDecimal(s[..|s| - 1]) + DigitValue(s[|s| - 1])
  }

  lemma {:induction false} DecimalRoundTrip(n: nat)
    ensures ParseDecimal(Decimal(n)) == n
  {
    if n >= 10 {
      var s := Decimal(n);
      assert s[..|s| - 1] == Decimal(n / 10);
      DecimalRoundTrip(n / 10);
    }
  }

  /** `"%01d.%02d"` of `(fw / 100, fw % 100)`. */
  function Version(fw: nat): (v: string)
  {
    var minor := fw % 100;
    Decimal(fw / 100) + "." + [Digit(minor / 10), Digit(minor % 10)]
  }

  /**
   * The version string is the major number, a dot and exactly two digits
   * of the minor number, and reads back as the firmware version.
   */
  lemma VersionRoundTrip(fw: nat)
    ensures var v := Version(fw);
      && |v| >= 4 && v[|v| - 3] == '.' && '.' !in v[..|v| - 3]
      && ParseDecimal(v[..|v| - 3]) * 100 + ParseDecimal(v[|v| - 2..]) == fw
  {
    var v := Version(fw);
    var minor := fw % 100;
    assert v[..|v| - 3] == Decimal(fw / 100);
    assert v[|v| - 2..] == [Digit(minor / 10), Digit(minor % 10)];
    assert v[|v| - 2..][..1] == [Digit(minor / 10)];
    assert ParseDecimal([Digit(minor / 10)]) == minor / 10;
    assert ParseDecimal(v[|v| - 2..]) == minor;
    DecimalRoundTrip(fw / 100);
  }

  lemma VersionExamples()
    ensures Version(100) == "1.00" && Version(5) == "0.05" && Version(1234) == "12.34"
  {
    assert Decimal(12) == Decimal(1) + [Digit(2)];
  }

  /** What identification stores in the device instance. */
  datatype Identity = Identity(vendor: string, model: string, version: string, serialNumber: string)

  function Identified(info: Codec.Information): Identity
  {
    var (vendor, model) := SplitName(info.modelName);
    Identity(vendor, model, Version(info.firmwareVersion), info.serialNumber)
  }

  /** What `appadmm_rere_read_information` delivered. */
  datatype InfoRead = InfoFailed(error: Status) | InfoNoAnswer | InfoAnswer(info: Codec.Information)

  /**
   * `appadmm_rere_read_information` after the exchange `ex`: a failed send
   * or receive passes its error on, ten attempts without a frame pass on
   * FALSE, and a frame is decoded.
   */
  function InformationRead(ex: Transport.Exchange): (r: InfoRead)
    requires ex.Reply? && ex.receipt.Frame? ==> Codec.FullPacket(ex.receipt.packet)
    ensures r.InfoNoAnswer? <==> ex == Transport.Reply(Transport.NoFrame)
    ensures r.InfoAnswer? <==> ex.Reply? && ex.receipt.Frame? && Codec.InformationOf(ex.receipt.packet).Success?
  {
    match ex
    case SendFailed(e) => InfoFailed(e)
    case Reply(Failed(e)) => InfoFailed(e)
    case Reply(NoFrame) => InfoNoAnswer
    case Reply(Frame(p)) =>
      match Codec.InformationOf(p)
      case Success(info) => InfoAnswer(info)
      case Failure(e) => InfoFailed(e)
  }

  /** The C value of that read: its error, FALSE, or TRUE for an answer. */
  function InfoResult(read: InfoRead): CInt
  {
    match read
    case InfoFailed(e) => Code(e)
    case InfoNoAnswer => CFalse
    case InfoAnswer(_) => CTrue
  }

  /** What identification returned, derived and stored as the model id. */
  datatype Identification = Identification(reply: CInt, id: Option<Identity>, modelId: nat)

  /**
   * `appadmm_identify` as written: only a result below SR_OK stops it. So
   * with no answer (FALSE) it goes on with `stack`, the uninitialised
   * `response` on its stack, derives the identity and stores the model id
   * from it, and returns FALSE; with an answer it returns TRUE.
   */
  function IdentifyResult(modelId: nat, read: InfoRead, stack: Codec.Information): (r: Identification)
    ensures r.reply == InfoResult(read)
    ensures r.id.None? <==> BelowOk(r.reply)
    ensures r.id.None? ==> r.modelId == modelId
    ensures read.InfoAnswer? ==> r.id == Some(Identified(read.info)) && r.modelId == read.info.modelId
  {
    var retr := InfoResult(read);
    if BelowOk(retr) then Identification(retr, None, modelId)
    else
      var response := if read.InfoAnswer? then read.info else stack;
      Identification(retr, Some(Identified(response)), response.modelId)
  }

  /**
   * Identification as evidently intended: anything but TRUE stops it, so
   * an identity is derived and a model id stored only from an answer.
   */
  function IdentifyFixed(modelId: nat, read: InfoRead): (r: Identification)
    ensures r.reply == InfoResult(read)
    ensures r.id.Some? <==> read.InfoAnswer?
    ensures r.id.Some? ==> r.id == Some(Identified(read.info)) && r.modelId == read.info.modelId
    ensures r.id.None? ==> r.modelId == modelId
  {
    var retr := InfoResult(read);
    if BelowTrue(retr) then Identification(retr, None, modelId)
    else Identification(CTrue, Some(Identified(read.info)), read.info.modelId)
  }

  /**
   * As written, a meter that never answers is identified all the same:
   * FALSE passes the `< SR_OK` test, and whatever the stack held becomes
   * the identity and the model id.
   */
  lemma IdentifyAcceptsSilence(modelId: nat, stack: Codec.Information)
    ensures var r := IdentifyResult(modelId, InfoNoAnswer, stack);
      && r.reply == CFalse && !BelowOk(r.reply)
      && r.id == Some(Identified(stack)) && r.modelId == stack.modelId
      && r != IdentifyFixed(modelId, InfoNoAnswer)
  {
  }

  /** On an answer or a failed read, both return and store the same. */
  lemma IdentifyAgreesOnReplies(modelId: nat, read: InfoRead, stack: Codec.Information)
    requires !read.InfoNoAnswer?
    requires read.InfoFailed? ==> Failed(read.error)
    ensures IdentifyResult(modelId, read, stack) == IdentifyFixed(modelId, read)
  {
  }

  // ---------------------------------------------------------------------
  // The device context as a value
  // ---------------------------------------------------------------------

  /** `appadmm_data_source_e`. */
  datatype DataSource = SourceLive | SourceMem | SourceLog

  /** The storage area a data source reads, as a slot of `storage_info[]`. */
  function StorageSlot(d: DataSource): (r: Option<nat>)
    ensures r.None? <==> d == SourceLive
  {
    match d
    case SourceLive => None
    case SourceMem => Some(Storage.Mem)
    case SourceLog => Some(Storage.Log)
  }

  /** The fields of `appadmm_context` the session logic reads and writes. */
  datatype Context = Context(modelId: nat, dataSource: DataSource, requestPending: bool,
                             errorCounter: int, samplesRead: nat, storageInfo: seq<Storage.StorageInfo>)

  /**
   * The storage area being read has been described by packet.h's
   * `dec_storage_info`: 5-byte entries and a non-empty bank.
   */
  predicate Ready(c: Context)
  {
    match StorageSlot(c.dataSource)
    case None => true
    case Some(i) =>
      i < |c.storageInfo| && c.storageInfo[i].entrySize == Storage.RecordSize as int
      && c.storageInfo[i].entryCount > 0
  }

  /**
   * One analog packet sent to the session, on its channel, recorded by
   * what it was computed from: a display's data and where its function
   * code came from, or the sample count a stored entry's number is
   * taken from. `Sent` gives the analog value.
   */
  datatype Sample = Reading(channel: Channel, data: Codec.DisplayData, source: Source)
                  | EntryNumber(channel: Channel, samplesRead: nat)

  /** The analog value a sample carries. */
  function Sent(s: Sample): Result<Analog>
  {
    match s
    case Reading(channel, data, source) => TransformDisplayData(data, channel, source)
    case EntryNumber(_, samplesRead) => Success(SampleId(samplesRead))
  }

  /** What a run of sends produced: the last status and the samples. */
  datatype Emitted = Emitted(status: Status, samples: seq<Sample>)

  /** A request sent to the meter. */
  datatype Request = ReadDisplayRequest | ReadMemoryRequest(page: Storage.PageRequest)

  /**
   * One run of a callback: the new context, its return value, the
   * samples sent and the request sent.
   */
  datatype Step = Step(next: Context, reply: CInt, samples: seq<Sample>, request: Option<Request>)

  // ---------------------------------------------------------------------
  // Live readings
  // ---------------------------------------------------------------------

  /**
   * `appadmm_process_read_display` with every send answering `sink`: the
   * primary display is always sent; the secondary only if the primary's
   * send did not fail and the model's secondary capability is truthy.
   */
  function DisplaySamples(modelId: nat, d: Codec.Display, sink: Status): Emitted
  {
    var source := Live(d.functionCode, d.autoRange);
    var primary := Reading(Primary, d.primary, source);
    if Failed(sink) then Emitted(sink, [primary])
    else if Truthy(CapChannel(modelId, Secondary)) then
      Emitted(sink, [primary, Reading(Secondary, d.secondary, source)])
    else Emitted(Ok, [primary])
  }

  /**
   * A live frame yields the primary reading first, then the secondary one
   * exactly when the sink accepted the first and the model is not a
   * single-display one; every sample has a quantity.
   */
  lemma DisplaySamplesShape(modelId: nat, d: Codec.Display, sink: Status)
    ensures var e := DisplaySamples(modelId, d, sink);
      && 1 <= |e.samples| <= 2
      && e.samples[0].channel == Primary
      && (|e.samples| == 2 <==> !Failed(sink) && modelId !in SingleDisplayModels)
      && (|e.samples| == 2 ==> e.samples[1].channel == Secondary)
      && (forall i :: 0 <= i < |e.samples| ==> Sent(e.samples[i]).Success? && Sent(e.samples[i]).value.mq != NoQuantity)
      && (Failed(e.status) <==> Failed(sink))
  {
    ShownChannels(modelId);
  }

  /** What `appadmm_response_read_display` delivered. */
  datatype LiveRead = LiveFailed(error: Status) | LiveIncomplete | LiveFrame(display: Codec.Display)

  /**
   * `appadmm_serial_receive_live`: a failed read aborts; a complete frame
   * is sent out and clears the request latch; with the latch clear a new
   * request is sent, `sent` being the request wrapper's result, which
   * sets the latch when it is not below TRUE and aborts otherwise; the
   * callback returns FALSE when the limits are reached or it aborted.
   * Every sample sent is counted, and the callback never returns a status.
   */
  function LiveStep(c: Context, readable: bool, read: LiveRead, sink: Status, sent: CInt,
                    limitHit: iset<nat>): (s: Step)
    ensures s.next.samplesRead == c.samplesRead + |s.samples|
    ensures s.reply == CTrue || s.reply == CFalse
  {
    var e := if readable && read.LiveFrame? then DisplaySamples(c.modelId, read.display, sink) else Emitted(Ok, []);
    var readAbort := readable && (read.LiveFailed? || (read.LiveFrame? && Failed(e.status)));
    var idle := !c.requestPending || (readable && read.LiveFrame?);
    var samplesRead := c.samplesRead + |e.samples|;
    var abort := readAbort || (idle && BelowTrue(sent));
    Step(c.(requestPending := !idle || !BelowTrue(sent), samplesRead := samplesRead),
         if samplesRead in limitHit || abort then CFalse else CTrue,
         e.samples,
         if idle && !BelowTrue(sent) then Some(ReadDisplayRequest) else None)
  }

  /**
   * The latch keeps one request in flight: a request goes out only when
   * none is pending or a frame has just answered it, and after a
   * successful send one is pending; nothing else in the context changes.
   */
  lemma LiveLatch(c: Context, readable: bool, read: LiveRead, sink: Status, sent: CInt, limitHit: iset<nat>)
    ensures var s := LiveStep(c, readable, read, sink, sent, limitHit);
      && (s.request.Some? <==> !BelowTrue(sent) && (!c.requestPending || (readable && read.LiveFrame?)))
      && (s.request.Some? ==> s.next.requestPending)
      && (c.requestPending && !(readable && read.LiveFrame?) ==> s.request.None? && s.next.requestPending)
      && s.next.(requestPending := c.requestPending, samplesRead := c.samplesRead) == c
  {
  }

  /**
   * The live callback keeps its source (TRUE) exactly when the limits are
   * not reached, the read did not fail, the frame's samples were accepted
   * and no request had to be sent or it was sent.
   */
  lemma LiveStops(c: Context, readable: bool, read: LiveRead, sink: Status, sent: CInt, limitHit: iset<nat>)
    ensures var s := LiveStep(c, readable, read, sink, sent, limitHit);
      && (s.reply != CTrue <==> (|| s.next.samplesRead in limitHit
                                 || (readable && read.LiveFailed?)
                                 || (readable && read.LiveFrame? && Failed(sink))
                                 || (s.request.None? && (!c.requestPending || (readable && read.LiveFrame?)))))
  {
    if readable && read.LiveFrame? {
      DisplaySamplesShape(c.modelId, read.display, sink);
    }
  }

  /**
   * What `appadmm_request_read_display` and `appadmm_request_read_memory`
   * return: the status of `sr_tp_appa_send` passed on, SR_OK for a
   * request written.
   */
  function RequestResult(sent: Status): CInt
  {
    Code(sent)
  }

  /**
   * The result the callbacks' `< TRUE` test evidently expects of the
   * request wrappers: TRUE for a request written, as the `rere` wrappers
   * return it, and the status otherwise.
   */
  function RequestResultFixed(sent: Status): (r: CInt)
    ensures !BelowTrue(r) <==> sent == Ok
    ensures BelowOk(r) <==> Failed(sent)
  {
    if sent == Ok then CTrue else Code(sent)
  }

  /**
   * As written, no request ever passes the live callback's `< TRUE` test:
   * it never sends one, and whenever none is in flight it returns FALSE
   * and leaves the latch clear.
   */
  lemma LiveRequestAborts(c: Context, readable: bool, read: LiveRead, sink: Status, sent: Status,
                          limitHit: iset<nat>)
    ensures var s := LiveStep(c, readable, read, sink, RequestResult(sent), limitHit);
      && s.request.None?
      && ((!c.requestPending || (readable && read.LiveFrame?)) ==> s.reply == CFalse && !s.next.requestPending)
  {
  }

  /**
   * With the intended wrapper result, a request written while none is in
   * flight is sent and latched, and the callback keeps its source unless
   * the limits are reached or the read or the sink failed.
   */
  lemma LiveRequestFixed(c: Context, readable: bool, read: LiveRead, sink: Status, limitHit: iset<nat>)
    requires !c.requestPending || (readable && read.LiveFrame?)
    ensures var s := LiveStep(c, readable, read, sink, RequestResultFixed(Ok), limitHit);
      && s.request == Some(ReadDisplayRequest) && s.next.requestPending
      && (s.reply == CTrue <==> && s.next.samplesRead !in limitHit
                                && !(readable && read.LiveFailed?)
                                && !(readable && read.LiveFrame? && Failed(sink)))
  {
    if readable && read.LiveFrame? {
      DisplaySamplesShape(c.modelId, read.display, sink);
    }
  }

  // ---------------------------------------------------------------------
  // Stored readings
  // ---------------------------------------------------------------------

  /** `appadmm_transform_sample_id`: the stored entry's number as a COUNT. */
  function SampleId(samplesRead: nat): Analog
  {
    Analog(Unitless, Count, {}, 0, Scaled(samplesRead / 2 + 1, 1, 0), Quiet)
  }

  /** What processing stored records produced. */
  datatype Outcome = Outcome(status: Status, samples: seq<Sample>, samplesRead: nat)

  /** Samples `pre` sent before the run `o`. */
  function After(pre: seq<Sample>, o: Outcome): Outcome
  {
    Outcome(o.status, pre + o.samples, o.samplesRead)
  }

  lemma AfterAfter(a: seq<Sample>, b: seq<Sample>, o: Outcome)
    ensures After(a, After(b, o)) == After(a + b, o)
  {
    assert a + (b + o.samples) == (a + b) + o.samples;
  }

  /**
   * The loop of `appadmm_process_storage` from `samplesRead` on: each
   * record gives its primary sample (function code `logFn`), then, if the
   * secondary is truthy, the sample id; every sample counts as read; a
   * failed send returns its status, the limit check returns SR_OK. The
   * run fails exactly when a record meets a failing sink.
   */
  function StoredSamples(modelId: nat, records: seq<Codec.DisplayData>, logFn: nat, sink: Status,
                         limitHit: iset<nat>, samplesRead: nat): (o: Outcome)
    ensures o.status == if Failed(sink) && |records| > 0 then sink else Ok
    decreases |records|
  {
    if |records| == 0 then Outcome(Ok, [], samplesRead)
    else
      var frame := RecordFrame(modelId, records[0], logFn, sink, samplesRead);
      var n := samplesRead + |frame|;
      if Failed(sink) then Outcome(sink, frame, n)
      else if n in limitHit then Outcome(Ok, frame, n)
      else After(frame, StoredSamples(modelId, records[1..], logFn, sink, limitHit, n))
  }

  /**
   * The samples one stored record sends: its primary reading, then, if
   * that send did not fail and the secondary is truthy, its sample id.
   */
  function RecordFrame(modelId: nat, x: Codec.DisplayData, logFn: nat, sink: Status, samplesRead: nat): seq<Sample>
  {
    var primary := Reading(Primary, x, Stored(logFn));
    if !Failed(sink) && Truthy(CapChannel(modelId, Secondary)) then [primary, EntryNumber(Secondary, samplesRead + 1)]
    else [primary]
  }

  /** One record of the run, unfolded. */
  lemma StoredSamplesStep(modelId: nat, records: seq<Codec.DisplayData>, logFn: nat, sink: Status,
                          limitHit: iset<nat>, samplesRead: nat)
    requires |records| > 0
    ensures var frame := RecordFrame(modelId, records[0], logFn, sink, samplesRead);
      var n := samplesRead + |frame|;
      StoredSamples(modelId, records, logFn, sink, limitHit, samplesRead)
      == if Failed(sink) then Outcome(sink, frame, n)
         else if n in limitHit then Outcome(Ok, frame, n)
         else After(frame, StoredSamples(modelId, records[1..], logFn, sink, limitHit, n))
  {
  }

  /** Every sample sent is counted once, and each record sends at most two. */
  lemma {:induction false} StoredSamplesCounted(modelId: nat, records: seq<Codec.DisplayData>, logFn: nat, sink: Status,
                                               limitHit: iset<nat>, samplesRead: nat)
    ensures var o := StoredSamples(modelId, records, logFn, sink, limitHit, samplesRead);
      o.samplesRead == samplesRead + |o.samples| && |o.samples| <= 2 * |records|
    decreases |records|
  {
    if |records| > 0 && !Failed(sink) {
      var n := samplesRead + |RecordFrame(modelId, records[0], logFn, sink, samplesRead)|;
      StoredSamplesCounted(modelId, records[1..], logFn, sink, limitHit, n);
    }
  }

  /**
   * The samples a dual-display model sends for stored records when all
   * sends succeed and no limit is reached: each record's primary sample,
   * then its sample id.
   */
  function Interleaved(records: seq<Codec.DisplayData>, logFn: nat, samplesRead: nat): (r: seq<Sample>)
    ensures |r| == 2 * |records|
    decreases |records|
  {
    if |records| == 0 then []
    else [Reading(Primary, records[0], Stored(logFn)), EntryNumber(Secondary, samplesRead + 1)]
         + Interleaved(records[1..], logFn, samplesRead + 2)
  }

  /** The `j`-th record's two samples in the interleaved run. */
  lemma {:induction false} InterleavedAt(records: seq<Codec.DisplayData>, logFn: nat, samplesRead: nat, j: nat)
    requires j < |records|
    ensures var r := Interleaved(records, logFn, samplesRead);
      && r[2 * j] == Reading(Primary, records[j], Stored(logFn))
      && r[2 * j + 1] == EntryNumber(Secondary, samplesRead + 2 * j + 1)
    decreases j
  {
    if j > 0 {
      InterleavedAt(records[1..], logFn, samplesRead + 2, j - 1);
    }
  }

  lemma {:induction false} StoredSamplesInterleave(modelId: nat, records: seq<Codec.DisplayData>, logFn: nat,
                                                  limitHit: iset<nat>, samplesRead: nat)
    requires modelId in DualDisplayModels
    requires limitHit == iset{}
    ensures StoredSamples(modelId, records, logFn, Ok, limitHit, samplesRead)
            == Outcome(Ok, Interleaved(records, logFn, samplesRead), samplesRead + 2 * |records|)
    decreases |records|
  {
    if |records| > 0 {
      DualShowsSecondary(modelId);
      assert RecordFrame(modelId, records[0], logFn, Ok, samplesRead)
        == [Reading(Primary, records[0], Stored(logFn)), EntryNumber(Secondary, samplesRead + 1)];
      StoredSamplesStep(modelId, records, logFn, Ok, limitHit, samplesRead);
      StoredSamplesInterleave(modelId, records[1..], logFn, limitHit, samplesRead + 2);
    }
  }

  /**
   * A storage request starts at entry `samples_read / 2`; with both
   * channels sent per record, the sample id of the `j`-th record of that
   * page is the entry's number counted from one.
   */
  lemma SampleIdNumbersEntries(modelId: nat, records: seq<Codec.DisplayData>, logFn: nat,
                               limitHit: iset<nat>, entry: nat, j: nat)
    requires modelId in DualDisplayModels && j < |records|
    requires limitHit == iset{}
    ensures var o := StoredSamples(modelId, records, logFn, Ok, limitHit, 2 * entry);
      && |o.samples| == 2 * |records|
      && o.samples[2 * j] == Reading(Primary, records[j], Stored(logFn))
      && o.samples[2 * j + 1].channel == Secondary
      && Sent(o.samples[2 * j + 1]) == Success(Analog(Unitless, Count, {}, 0, Scaled(entry + j + 1, 1, 0), Quiet))
  {
    StoredSamplesInterleave(modelId, records, logFn, limitHit, 2 * entry);
    InterleavedAt(records, logFn, 2 * entry, j);
    assert (2 * entry + 2 * j + 1) / 2 == entry + j;
  }

  /** The samples one stored record sends when the sink accepts them. */
  function SamplesPerRecord(modelId: nat): (n: nat)
    ensures 1 <= n <= 2
    ensures n == 1 <==> modelId in SingleDisplayModels
  {
    CapChannelTable(modelId, Secondary);
    if Truthy(CapChannel(modelId, Secondary)) then 2 else 1
  }

  /**
   * With every send accepted and no limit reached, a page of records
   * counts `SamplesPerRecord` samples per record.
   */
  lemma {:induction false} StoredSamplesCount(modelId: nat, records: seq<Codec.DisplayData>, logFn: nat,
                                             samplesRead: nat)
    ensures StoredSamples(modelId, records, logFn, Ok, iset{}, samplesRead).samplesRead
            == samplesRead + SamplesPerRecord(modelId) * |records|
    decreases |records|
  {
    if |records| > 0 {
      var k := SamplesPerRecord(modelId);
      assert |RecordFrame(modelId, records[0], logFn, Ok, samplesRead)| == k;
      StoredSamplesCount(modelId, records[1..], logFn, samplesRead + k);
      assert k * |records| == k + k * |records[1..]|;
    }
  }

  /**
   * As written, the next page starts at entry `samples_read / 2` for
   * every model. A single-display model counts one sample per record, so
   * a page of two or more records is followed by a request that starts
   * inside it: twelve records read from entry 0 are followed by a request
   * from entry 6.
   */
  lemma SingleDisplayRereads(modelId: nat, records: seq<Codec.DisplayData>, logFn: nat, samplesRead: nat)
    requires modelId in SingleDisplayModels
    ensures var next := StoredSamples(modelId, records, logFn, Ok, iset{}, samplesRead).samplesRead / 2;
      && next == (samplesRead + |records|) / 2
      && (|records| >= 2 ==> next < samplesRead / 2 + |records|)
      && (samplesRead == 0 && |records| == 12 ==> next == 6)
  {
    CapChannelTable(modelId, Secondary);
    StoredSamplesCount(modelId, records, logFn, samplesRead);
  }

  /**
   * The entry the next storage request evidently should start from: the
   * samples read divided by the samples each record sends.
   */
  function NextEntry(modelId: nat, samplesRead: nat): nat
  {
    samplesRead / SamplesPerRecord(modelId)
  }

  /**
   * Paging by `NextEntry` continues right after a full page for every
   * model, and agrees with `samples_read / 2` for all but the
   * single-display ones.
   */
  lemma NextEntryFollowsPage(modelId: nat, records: seq<Codec.DisplayData>, logFn: nat, entry: nat)
    ensures var start := SamplesPerRecord(modelId) * entry;
      var o := StoredSamples(modelId, records, logFn, Ok, iset{}, start);
      && NextEntry(modelId, start) == entry
      && NextEntry(modelId, o.samplesRead) == entry + |records|
      && (modelId !in SingleDisplayModels ==> NextEntry(modelId, o.samplesRead) == o.samplesRead / 2)
  {
    var k := SamplesPerRecord(modelId);
    StoredSamplesCount(modelId, records, logFn, k * entry);
    assert k * entry + k * |records| == k * (entry + |records|);
  }

  /**
   * `appadmm_process_storage`: SR_ERR_BUG unless the data source is MEM or
   * LOG; otherwise the records packet.h's `dec_read_storage` reads from the
   * answer are sent out, `data_length / 5` of them.
   */
  function StoragePage(c: Context, data: seq<byte>, dataLength: int, logFn: nat, sink: Status,
                       limitHit: iset<nat>): (o: Outcome)
    requires Ready(c) && Storage.ResponseShape(data, dataLength)
  {
    match StorageSlot(c.dataSource)
    case None => Outcome(ErrBug, [], c.samplesRead)
    case Some(i) =>
      StoredSamples(c.modelId, Storage.PacketRecords(c.storageInfo[i], data, dataLength), logFn, sink,
                    limitHit, c.samplesRead)
  }

  /** What `appadmm_response_read_memory` delivered. */
  datatype StorageRead = StorageFailed(error: Status) | StorageIncomplete
                       | StorageFrame(data: seq<byte>, dataLength: int)

  predicate Shaped(read: StorageRead)
  {
    read.StorageFrame? ==> Storage.ResponseShape(read.data, read.dataLength)
  }

  /** The receive half of the storage callback. */
  datatype Receipt = Receipt(abort: bool, pending: bool, errorCounter: int, samples: seq<Sample>, samplesRead: nat)

  function StorageReceive(c: Context, readable: bool, read: StorageRead, logFn: nat, sink: Status,
                          limitHit: iset<nat>): Receipt
    requires Ready(c) && Shaped(read)
  {
    if !readable then Receipt(false, c.requestPending, c.errorCounter, [], c.samplesRead)
    else match read
      case StorageFailed(_) =>
        if c.errorCounter > 10 then Receipt(true, c.requestPending, c.errorCounter + 1, [], c.samplesRead)
        else Receipt(false, false, c.errorCounter + 1, [], c.samplesRead)
      case StorageIncomplete => Receipt(false, c.requestPending, c.errorCounter, [], c.samplesRead)
      case StorageFrame(data, dataLength) =>
        var o := StoragePage(c, data, dataLength, logFn, sink, limitHit);
        Receipt(Failed(o.status), false, if c.errorCounter > 0 then c.errorCounter - 1 else c.errorCounter,
                o.samples, o.samplesRead)
  }

  /**
   * `appadmm_serial_receive_storage`: SR_ERR_BUG, with nothing changed,
   * for the LIVE data source. A failed read counts an error and aborts
   * once the counter was above 10, else clears the latch for a retry; a
   * frame takes one error back, is processed and clears the latch. With
   * the latch clear and no abort, the page from entry `samples_read / 2`
   * is requested; FALSE is returned when the limits are reached or the
   * callback aborted.
   */
  function StorageStep(c: Context, readable: bool, read: StorageRead, logFn: nat, sink: Status,
                       sent: CInt, limitHit: iset<nat>): (s: Step)
    requires Ready(c) && Shaped(read)
    ensures s.reply.Code? <==> StorageSlot(c.dataSource).None?
    ensures s.reply.Code? ==> s.reply.status == ErrBug && s.next == c && s.samples == [] && s.request.None?
    ensures s.next.storageInfo == c.storageInfo && s.next.modelId == c.modelId && s.next.dataSource == c.dataSource
  {
    match StorageSlot(c.dataSource)
    case None => Step(c, Code(ErrBug), [], None)
    case Some(slot) =>
      var r := StorageReceive(c, readable, read, logFn, sink, limitHit);
      var page := if !r.pending && !r.abort then Storage.PacketPage(c.storageInfo[slot], r.samplesRead / 2, 0xff)
                  else Failure(Ok);
      var sending := !r.pending && !r.abort && page.Success? && !BelowTrue(sent);
      var abort := r.abort || (!r.pending && !sending);
      Step(c.(requestPending := r.pending || sending, errorCounter := r.errorCounter, samplesRead := r.samplesRead),
           if r.samplesRead in limitHit || abort then CFalse else CTrue,
           r.samples,
           if sending then Some(ReadMemoryRequest(page.value)) else None)
  }

  /**
   * A storage request asks for one 64-byte page starting at entry
   * `samples_read / 2`, and only when no request was pending or the
   * pending one was just answered or failed; after it, one is pending.
   */
  lemma StorageLatch(c: Context, readable: bool, read: StorageRead, logFn: nat, sink: Status,
                     sent: CInt, limitHit: iset<nat>)
    requires Ready(c) && Shaped(read)
    ensures var s := StorageStep(c, readable, read, logFn, sink, sent, limitHit);
      && (s.request.Some? ==>
            && !BelowTrue(sent) && s.next.requestPending
            && s.request.value.ReadMemoryRequest?
            && s.request.value.page.dataLength == FrameMaxDataSize
            && (!c.requestPending || (readable && !read.StorageIncomplete?)))
      && (c.requestPending && !(readable && !read.StorageIncomplete?) ==> s.request.None? && s.next.requestPending == c.requestPending)
      && s.next.samplesRead == c.samplesRead + |s.samples|
  {
    if readable && read.StorageFrame? && StorageSlot(c.dataSource).Some? {
      var slot := StorageSlot(c.dataSource).value;
      StoredSamplesCounted(c.modelId, Storage.PacketRecords(c.storageInfo[slot], read.data, read.dataLength),
                           logFn, sink, limitHit, c.samplesRead);
    }
  }

  /**
   * As written, the storage callback never sends a request either, and
   * it never keeps its source with no request in flight.
   */
  lemma StorageRequestAborts(c: Context, readable: bool, read: StorageRead, logFn: nat, sink: Status,
                             sent: Status, limitHit: iset<nat>)
    requires Ready(c) && Shaped(read)
    ensures var s := StorageStep(c, readable, read, logFn, sink, RequestResult(sent), limitHit);
      && s.request.None?
      && (!s.next.requestPending ==> s.reply != CTrue)
  {
  }

  /** The context after `k` storage callbacks whose reads all failed with `e`. */
  function FailedSteps(c: Context, k: nat, e: Status, sent: CInt, limitHit: iset<nat>): (r: Context)
    requires Ready(c)
    ensures Ready(r)
    decreases k
  {
    if k == 0 then c
    else
      var s := StorageStep(c, true, StorageFailed(e), 0, Ok, sent, limitHit).next;
      assert Ready(s) by { assert s.storageInfo == c.storageInfo && s.dataSource == c.dataSource; }
      FailedSteps(s, k - 1, e, sent, limitHit)
  }

  lemma {:induction false} FailedStepsCount(c: Context, k: nat, e: Status, sent: CInt, limitHit: iset<nat>)
    requires Ready(c) && StorageSlot(c.dataSource).Some?
    ensures var r := FailedSteps(c, k, e, sent, limitHit);
      r.errorCounter == c.errorCounter + k && r == c.(requestPending := r.requestPending, errorCounter := r.errorCounter)
    decreases k
  {
    if k > 0 {
      var s := StorageStep(c, true, StorageFailed(e), 0, Ok, sent, limitHit).next;
      FailedStepsCount(s, k - 1, e, sent, limitHit);
    }
  }

  /**
   * From a clear error counter, the storage callback rides out eleven
   * failed reads in a row (each retries the request) and stops at the
   * twelfth; the post-increment in `error_counter++ > 10` sets the bound.
   */
  lemma ToleratesElevenFailures(c: Context, k: nat, e: Status, limitHit: iset<nat>)
    requires Ready(c) && StorageSlot(c.dataSource).Some? && c.errorCounter == 0 && k <= 11
    requires limitHit == iset{}
    requires Storage.PacketPage(c.storageInfo[StorageSlot(c.dataSource).value], c.samplesRead / 2, 0xff).Success?
    ensures var s := StorageStep(FailedSteps(c, k, e, CTrue, limitHit), true, StorageFailed(e), 0, Ok, CTrue, limitHit);
      && (s.reply == CTrue <==> k <= 10)
      && (k <= 10 ==> s.request.Some?)
      && s.next.errorCounter == k + 1
  {
    FailedStepsCount(c, k, e, CTrue, limitHit);
  }

  // ---------------------------------------------------------------------
  // Clearing
  // ---------------------------------------------------------------------

  /** A storage-info record with everything but `mem_start` zeroed. */
  function ClearedInfo(s: Storage.StorageInfo): (r: Storage.StorageInfo)
  {
    Storage.StorageInfo(0, 0, 0, 0, 0, 0, s.memStart)
  }

  function ClearedInfos(s: seq<Storage.StorageInfo>): (r: seq<Storage.StorageInfo>)
    ensures |r| == |s|
  {
    seq(|s|, i requires 0 <= i < |s| => ClearedInfo(s[i]))
  }

  /** `appadmm_clear_context` on the context's value. */
  function Cleared(c: Context): Context
  {
    Context(ModelInvalid, SourceLive, false, 0, c.samplesRead, ClearedInfos(c.storageInfo))
  }

  /**
   * A cleared context describes no storage area the paging could divide
   * by, clearing twice is clearing once, its storage callback answers
   * SR_ERR_BUG and changes nothing, and it shows both display channels.
   */
  lemma ClearedContext(c: Context, readable: bool, read: StorageRead, logFn: nat, sink: Status,
                       sent: CInt, limitHit: iset<nat>)
    requires Shaped(read)
    ensures forall i :: 0 <= i < |c.storageInfo| ==> !Storage.Usable(Cleared(c).storageInfo[i])
    ensures Cleared(Cleared(c)) == Cleared(c)
    ensures Ready(Cleared(c))
    ensures StorageStep(Cleared(c), readable, read, logFn, sink, sent, limitHit)
            == Step(Cleared(c), Code(ErrBug), [], None)
    ensures Truthy(CapChannel(Cleared(c).modelId, Secondary))
  {
  }

  /** `appadmm_clear_storage_info`: SR_ERR_BUG for a null array. */
  method ClearStorageInfo(slots: array?<Storage.StorageInfo>) returns (status: Status)
    modifies slots
    ensures slots == null ==> status == ErrBug
    ensures slots != null ==> status == Ok && slots[..] == ClearedInfos(old(slots[..]))
  {
    if slots == null {
      return ErrBug;
    }
    for i := 0 to slots.Length
      invariant forall k :: 0 <= k < i ==> slots[k] == ClearedInfo(old(slots[k]))
      invariant forall k :: i <= k < slots.Length ==> slots[k] == old(slots[k])
    {
      slots[i] := slots[i].(amount := 0, interval := 0, entrySize := 0, entryCount := 0,
                            memCount := 0, memOffset := 0);
    }
    status := Ok;
  }

  // ---------------------------------------------------------------------
  // The device context
  // ---------------------------------------------------------------------

  /** `appadmm_context`: the state the callbacks update in place. */
  class DeviceContext {
    var modelId: nat
    var dataSource: DataSource
    var requestPending: bool
    var errorCounter: int
    /** `limits.samples_read`. */
    var samplesRead: nat
    const storageInfo: array<Storage.StorageInfo>

    function State(): Context
      reads this, storageInfo
    {
      Context(modelId, dataSource, requestPending, errorCounter, samplesRead, storageInfo[..])
    }

    /** A zero-filled context, as `g_malloc0` leaves it. */
    constructor (slots: nat)
      ensures fresh(storageInfo)
      ensures State() == Context(ModelInvalid, SourceLive, false, 0, 0,
                                 seq(slots, _ => Storage.StorageInfo(0, 0, 0, 0, 0, 0, 0)))
    {
      modelId := ModelInvalid;
      dataSource := SourceLive;
      requestPending := false;
      errorCounter := 0;
      samplesRead := 0;
      storageInfo := new Storage.StorageInfo[slots](_ => Storage.StorageInfo(0, 0, 0, 0, 0, 0, 0));
    }

    /** `appadmm_clear_context`. */
    method ClearContext() returns (status: Status)
      modifies this, storageInfo
      ensures status == Ok && State() == Cleared(old(State()))
    {
      modelId := ModelInvalid;
      dataSource := SourceLive;
      status := ClearStorageInfo(storageInfo);
      requestPending := false;
      errorCounter := 0;
    }

    /**
     * `appadmm_identify`: a result below SR_OK from the information read
     * is returned as is; otherwise the identity is derived from `response`
     * (the answer, or `stack` when there was none), the model id stored and
     * the read's result returned.
     */
    method Identify(read: InfoRead, stack: Codec.Information) returns (reply: CInt, id: Option<Identity>)
      modifies this
      ensures var r := IdentifyResult(old(modelId), read, stack);
        reply == r.reply && id == r.id && State() == old(State()).(modelId := r.modelId)
    {
      var retr := InfoResult(read);
      if BelowOk(retr) {
        return retr, None;
      }
      var response := if read.InfoAnswer? then read.info else stack;
      var vendor, model;
      match LastSpace(response.modelName) {
        case None =>
          vendor, model := "APPA", response.modelName;
        case Some(delim) =>
          model := response.modelName[delim + 1..];
          vendor := response.modelName[..|response.modelName| - |model| - 1];
      }
      var version := Version(response.firmwareVersion);
      modelId := response.modelId;
      id := Some(Identity(vendor, model, version, response.serialNumber));
      reply := retr;
    }

    /** `appadmm_process_read_display`; each sample sent counts as read. */
    method ProcessReadDisplay(d: Codec.Display, sink: Status) returns (status: Status, samples: seq<Sample>)
      modifies this
      ensures var e := DisplaySamples(old(modelId), d, sink);
        status == e.status && samples == e.samples
        && State() == old(State()).(samplesRead := old(samplesRead) + |e.samples|)
    {
      var source := Live(d.functionCode, d.autoRange);
      samples := [Reading(Primary, d.primary, source)];
      samplesRead := samplesRead + 1;
      status := sink;
      if Failed(status) {
        return;
      }
      if Truthy(CapChannel(modelId, Secondary)) {
        samples := samples + [Reading(Secondary, d.secondary, source)];
        samplesRead := samplesRead + 1;
        status := sink;
      }
    }

    /**
     * The body of the loop of `appadmm_process_storage`: the record's
     * primary reading, then its sample id, each counted as read.
     */
    method SendRecord(x: Codec.DisplayData, logFn: nat, sink: Status) returns (status: Status, frame: seq<Sample>)
      modifies this
      ensures status == sink && frame == RecordFrame(old(modelId), x, logFn, sink, old(samplesRead))
      ensures samplesRead == old(samplesRead) + |frame|
      ensures modelId == old(modelId) && dataSource == old(dataSource)
      ensures requestPending == old(requestPending) && errorCounter == old(errorCounter)
    {
      frame := [Reading(Primary, x, Stored(logFn))];
      samplesRead := samplesRead + 1;
      status := sink;
      if Failed(status) {
        return;
      }
      if Truthy(CapChannel(modelId, Secondary)) {
        frame := frame + [EntryNumber(Secondary, samplesRead)];
        samplesRead := samplesRead + 1;
        status := sink;
      }
    }

    /**
     * The loop of `appadmm_process_storage` over `count` decoded records:
     * each record's samples are sent; a failed send or the limit check
     * ends the loop early.
     */
    method SendStoredRecords(records: seq<Codec.DisplayData>, count: int, logFn: nat, sink: Status,
                             limitHit: iset<nat>)
      returns (status: Status, samples: seq<Sample>)
      requires count == |records|
      modifies this
      ensures var o := StoredSamples(old(modelId), records, logFn, sink, limitHit, old(samplesRead));
        status == o.status && samples == o.samples && samplesRead == o.samplesRead
      ensures modelId == old(modelId) && dataSource == old(dataSource)
      ensures requestPending == old(requestPending) && errorCounter == old(errorCounter)
    {
      ghost var id := modelId;
      ghost var run := StoredSamples(id, records, logFn, sink, limitHit, samplesRead);
      samples := [];
      var xloop := 0;
      while xloop < count
        invariant 0 <= xloop <= |records|
        invariant run == After(samples, StoredSamples(id, records[xloop..], logFn, sink, limitHit, samplesRead))
        invariant modelId == old(modelId) && dataSource == old(dataSource)
        invariant requestPending == old(requestPending) && errorCounter == old(errorCounter)
      {
        ghost var read := samplesRead;
        ghost var pending := records[xloop..];
        var frame;
        status, frame := SendRecord(records[xloop], logFn, sink);
        assert pending[0] == records[xloop] && pending[1..] == records[xloop + 1..];
        StoredSamplesStep(id, pending, logFn, sink, limitHit, read);
        ghost var sent := samples;
        samples := samples + frame;
        if Failed(status) {
          assert run == Outcome(sink, samples, samplesRead);
          return;
        }
        if samplesRead in limitHit {
          assert run == Outcome(Ok, samples, samplesRead);
          return Ok, samples;
        }
        ghost var rest := StoredSamples(id, pending[1..], logFn, sink, limitHit, samplesRead);
        assert StoredSamples(id, pending, logFn, sink, limitHit, read) == After(frame, rest);
        AfterAfter(sent, frame, rest);
        xloop := xloop + 1;
      }
      status := Ok;
    }

    /**
     * `appadmm_process_storage`: SR_ERR_BUG for the LIVE data source;
     * otherwise the answer's records are decoded and sent, `data_length
     * / 5` of them.
     */
    method ProcessStorage(data: seq<byte>, dataLength: int, logFn: nat, sink: Status, limitHit: iset<nat>)
      returns (status: Status, samples: seq<Sample>)
      requires Ready(State()) && Storage.ResponseShape(data, dataLength)
      modifies this
      ensures var o := StoragePage(old(State()), data, dataLength, logFn, sink, limitHit);
        status == o.status && samples == o.samples && samplesRead == o.samplesRead
      ensures modelId == old(modelId) && dataSource == old(dataSource)
      ensures requestPending == old(requestPending) && errorCounter == old(errorCounter)
    {
      var slot := StorageSlot(dataSource);
      if slot.None? {
        return ErrBug, [];
      }
      var records := Storage.PacketRecords(storageInfo[slot.value], data, dataLength);
      status, samples := SendStoredRecords(records, dataLength / Storage.RecordSize, logFn, sink, limitHit);
    }

    /** `appadmm_serial_receive_live`. */
    method ReceiveLive(readable: bool, read: LiveRead, sink: Status, sent: CInt, limitHit: iset<nat>)
      returns (reply: CInt, samples: seq<Sample>, request: Option<Request>)
      modifies this
      ensures var s := LiveStep(old(State()), readable, read, sink, sent, limitHit);
        State() == s.next && reply == s.reply && samples == s.samples && request == s.request
    {
      var abort := false;
      samples := [];
      request := None;
      if readable {
        match read {
          case LiveFailed(_) =>
            abort := true;
          case LiveIncomplete =>
          case LiveFrame(d) =>
            var status;
            status, samples := ProcessReadDisplay(d, sink);
            if Failed(status) {
              abort := true;
            }
            requestPending := false;
        }
      }
      if !requestPending {
        if BelowTrue(sent) {
          abort := true;
        } else {
          request := Some(ReadDisplayRequest);
          requestPending := true;
        }
      }
      if samplesRead in limitHit || abort {
        return CFalse, samples, request;
      }
      reply := CTrue;
    }

    /**
     * The receive half of `appadmm_serial_receive_storage`: count a failed
     * read or take one error back and process a frame.
     */
    method ReceiveMemory(readable: bool, read: StorageRead, logFn: nat, sink: Status, limitHit: iset<nat>)
      returns (abort: bool, samples: seq<Sample>)
      requires Ready(State()) && Shaped(read) && StorageSlot(dataSource).Some?
      modifies this
      ensures var r := StorageReceive(old(State()), readable, read, logFn, sink, limitHit);
        && abort == r.abort && samples == r.samples
        && requestPending == r.pending && errorCounter == r.errorCounter && samplesRead == r.samplesRead
      ensures modelId == old(modelId) && dataSource == old(dataSource)
    {
      abort := false;
      samples := [];
      if readable {
        match read {
          case StorageFailed(_) =>
            var failures := errorCounter;
            errorCounter := errorCounter + 1;
            if failures > 10 {
              abort := true;
            } else {
              requestPending := false;
            }
          case StorageIncomplete =>
          case StorageFrame(data, dataLength) =>
            if errorCounter > 0 {
              errorCounter := errorCounter - 1;
            }
            var status;
            status, samples := ProcessStorage(data, dataLength, logFn, sink, limitHit);
            if Failed(status) {
              abort := true;
            }
            requestPending := false;
        }
      }
    }

    /** `appadmm_serial_receive_storage`. */
    method ReceiveStorage(readable: bool, read: StorageRead, logFn: nat, sink: Status, sent: CInt,
                          limitHit: iset<nat>)
      returns (reply: CInt, samples: seq<Sample>, request: Option<Request>)
      requires Ready(State()) && Shaped(read)
      modifies this
      ensures var s := StorageStep(old(State()), readable, read, logFn, sink, sent, limitHit);
        State() == s.next && reply == s.reply && samples == s.samples && request == s.request
    {
      var slot := StorageSlot(dataSource);
      if slot.None? {
        return Code(ErrBug), [], None;
      }
      var abort;
      abort, samples := ReceiveMemory(readable, read, logFn, sink, limitHit);
      request := None;
      if !requestPending && !abort {
        var page := Storage.EncodePacketPage(storageInfo[slot.value], samplesRead / 2, 0xff);
        if page.Failure? {
          abort := true;
        } else if BelowTrue(sent) {
          abort := true;
        } else {
          request := Some(ReadMemoryRequest(page.value));
          requestPending := true;
        }
      }
      if samplesRead in limitHit || abort {
        return CFalse, samples, request;
      }
      reply := CTrue;
    }
  }
}

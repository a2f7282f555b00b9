/** The module-level `merchantData` record of server.js as a value, and the
    rules that change it, as functions from the old record to the new one:
    the MAC check (`checkAndUpdateMacAddress`), QR regeneration
    (`generateQRCode`) and the body of the `sendFile` handler. Each rule also
    returns the snapshots it writes to the data file, in order, and the
    socket events it emits. */
module MerchantRecord {
  import opened Wrappers

  /** One transferred file, as pushed onto `files`. */
  datatype FileRecord = FileRecord(fileName: string, fileData: string, timestamp: string)

  /** `merchantData = {qrCode, macAddress, files}`; `None` is `null`. */
  datatype Record = Record(qrCode: Option<string>, macAddress: Option<string>, files: seq<FileRecord>)

  /** The two request fields the customer URL is built from. */
  datatype Request = Request(protocol: string, host: string)

  /** What `generateQRCode` throws: the encoder's own error, or the file write's. */
  datatype Failure = EncodeFailed(reason: string) | WriteFailed

  /** Where an event goes: every socket in a room, or only the sending socket. */
  datatype Target = Room(name: string) | Sender

  datatype Payload = File(record: FileRecord) | Message(text: string)

  /** One `emit` call. */
  datatype Event = Emit(target: Target, name: string, payload: Payload)

  /** The QR encoder (`QRCode.toDataURL`): a data URL, or an error. */
  type Encoder = string -> Result<string, string>

  /** The record `loadMerchantData` builds when no data file exists. */
  const Default: Record := Record(None, None, [])

  const CustomerPath: string := "/customer.html?merchant="

  const SaveError: string := "Failed to save file record"

  /** JavaScript truthiness of a nullable string: `null` and `""` are falsy. */
  predicate Truthy(o: Option<string>) {
    o.Some? && o.value != ""
  }

  /** The stored MAC is set and equal to the current one, and a QR code is
      stored: the only state in which `generateQRCode` does not encode. */
  predicate Cached(r: Record, current: string) {
    Truthy(r.macAddress) && r.macAddress.value == current && Truthy(r.qrCode)
  }

  /** The URL the QR code encodes. */
  function CustomerUrl(req: Request, mac: string): string {
    req.protocol + "://" + req.host + CustomerPath + mac
  }

  /** For one request, the URL determines the MAC it carries, so a new MAC
      always yields a new URL. */
  lemma CustomerUrlDeterminesMac(req: Request, m1: string, m2: string)
    ensures CustomerUrl(req, m1) == CustomerUrl(req, m2) <==> m1 == m2
  {
    var prefix := req.protocol + "://" + req.host + CustomerPath;
    assert CustomerUrl(req, m1) == prefix + m1;
    assert CustomerUrl(req, m2) == prefix + m2;
    if CustomerUrl(req, m1) == CustomerUrl(req, m2) {
      assert m1 == (prefix + m1)[|prefix|..];
      assert m2 == (prefix + m2)[|prefix|..];
    }
  }

  /** The record after the MAC check and whether the check reports a change. */
  datatype Checked = Checked(record: Record, changed: bool)

  /** `checkAndUpdateMacAddress` with the current MAC as input. */
  function CheckMac(r: Record, current: string): (c: Checked)
    ensures c.record.macAddress == Some(current)
    ensures c.record.files == r.files
    ensures c.changed <==> Truthy(r.macAddress) && r.macAddress.value != current
    ensures c.record.qrCode == if Truthy(r.macAddress) && r.macAddress.value == current then r.qrCode else None
  {
    if !Truthy(r.macAddress) then
      Checked(r.(macAddress := Some(current), qrCode := None), false)
    else if r.macAddress.value != current then
      Checked(r.(macAddress := Some(current), qrCode := None), true)
    else
      Checked(r, false)
  }

  /** The record after a call, the snapshots written to the data file during
      it, and what the call returns or throws. */
  datatype Step = Step(after: Record, persisted: seq<Record>, result: Result<string, Failure>)

  /** `generateQRCode`: the MAC check, then, unless the code is cached,
      encoding the customer URL, storing the code and writing the record. */
  function Generate(r: Record, req: Request, current: string, encode: Encoder, writeOk: bool): (s: Step)
    ensures s.after.macAddress == Some(current) && s.after.files == r.files
    ensures s.persisted == [] || s.persisted == [s.after]
    ensures s.result.Success? ==> s.after.qrCode == Some(s.result.value)
    ensures Cached(r, current) ==> s == Step(r, [], Success(r.qrCode.value))
    ensures !Cached(r, current) ==>
      var e := encode(CustomerUrl(req, current));
      if e.Failure? then
        s.result == Failure(EncodeFailed(e.error)) && s.persisted == [] && !Truthy(s.after.qrCode)
      else
        && s.after.qrCode == Some(e.value)
        && s.persisted == (if writeOk then [s.after] else [])
        && s.result == (if writeOk then Success(e.value) else Failure(WriteFailed))
  {
    var c := CheckMac(r, current);
    if c.changed || !Truthy(c.record.qrCode) then
      match encode(CustomerUrl(req, c.record.macAddress.value))
      case Failure(e) => Step(c.record, [], Failure(EncodeFailed(e)))
      case Success(code) =>
        var stored := c.record.(qrCode := Some(code));
        if writeOk then Step(stored, [stored], Success(code))
        else Step(stored, [], Failure(WriteFailed))
    else
      Step(c.record, [], Success(c.record.qrCode.value))
  }

  /** The record after a `sendFile`, the snapshots written, and the events emitted. */
  datatype Delivery = Delivery(after: Record, persisted: seq<Record>, events: seq<Event>)

  /** The body of the `sendFile` handler: push the record, write the file, and
      emit `receiveFile` to the room or `error` to the sender. */
  function Transfer(r: Record, merchantId: string, fileName: string, fileData: string,
                    timestamp: string, writeOk: bool): (d: Delivery)
    ensures d.after.files == r.files + [FileRecord(fileName, fileData, timestamp)]
    ensures d.after.qrCode == r.qrCode && d.after.macAddress == r.macAddress
    ensures writeOk ==>
      (d.persisted == [d.after] &&
       d.events == [Emit(Room(merchantId), "receiveFile", File(FileRecord(fileName, fileData, timestamp)))])
    ensures !writeOk ==> d.persisted == [] && d.events == [Emit(Sender, "error", Message(SaveError))]
  {
    var rec := FileRecord(fileName, fileData, timestamp);
    var after := r.(files := r.files + [rec]);
    if writeOk then Delivery(after, [after], [Emit(Room(merchantId), "receiveFile", File(rec))])
    else Delivery(after, [], [Emit(Sender, "error", Message(SaveError))])
  }

  /** A call into the core: a QR request or a `sendFile` event, with the
      outcomes of the host dependencies it meets. */
  datatype Op =
    | GenerateOp(req: Request, current: string, encode: Encoder, writeOk: bool)
    | SendFileOp(merchantId: string, fileName: string, fileData: string, timestamp: string, writeOk: bool)

  /** The record after a run of calls, and everything the run wrote, returned
      or emitted, in order. */
  datatype Trace = Trace(after: Record, persisted: seq<Record>,
                         results: seq<Result<string, Failure>>, events: seq<Event>)

  /** Calls applied one after another to the one shared record. */
  function Run(r: Record, ops: seq<Op>): Trace
    decreases |ops|
  {
    if |ops| == 0 then Trace(r, [], [], [])
    else match ops[0]
      case GenerateOp(req, current, encode, writeOk) =>
        var s := Generate(r, req, current, encode, writeOk);
        var t := Run(s.after, ops[1..]);
        Trace(t.after, s.persisted + t.persisted, [s.result] + t.results, t.events)
      case SendFileOp(merchantId, fileName, fileData, timestamp, writeOk) =>
        var d := Transfer(r, merchantId, fileName, fileData, timestamp, writeOk);
        var t := Run(d.after, ops[1..]);
        Trace(t.after, d.persisted + t.persisted, t.results, d.events + t.events)
  }

  /** First use (no stored MAC, `null` or `""`): the check reports no change but clears the
      code, so the same call still encodes the URL of the current MAC. */
  lemma FirstUseEncodes(r: Record, req: Request, current: string, encode: Encoder, writeOk: bool)
    requires !Truthy(r.macAddress)
    ensures !CheckMac(r, current).changed && CheckMac(r, current).record.qrCode == None
    ensures var e := encode(CustomerUrl(req, current));
      e.Success? ==> Generate(r, req, current, encode, writeOk).after.qrCode == Some(e.value)
  {
  }

  /** A different stored MAC forces a new encoding of a URL that differs from
      the one the old code was made from. */
  lemma MacChangeReencodes(r: Record, req: Request, current: string, encode: Encoder, writeOk: bool)
    requires Truthy(r.macAddress) && r.macAddress.value != current
    ensures CustomerUrl(req, current) != CustomerUrl(req, r.macAddress.value)
    ensures var e := encode(CustomerUrl(req, current));
      Generate(r, req, current, encode, writeOk).after.qrCode == (if e.Success? then Some(e.value) else None)
  {
    CustomerUrlDeterminesMac(req, current, r.macAddress.value);
  }

  /** After an encoder failure nothing is written, the MAC is updated, and
      the next call with the same MAC encodes again. */
  lemma RetryAfterEncodeFailure(r: Record, req: Request, current: string, encode: Encoder, writeOk: bool,
                                req2: Request, encode2: Encoder, writeOk2: bool)
    requires encode(CustomerUrl(req, current)).Failure?
    requires !Cached(r, current)
    ensures var s := Generate(r, req, current, encode, writeOk);
      && s.persisted == [] && s.after.macAddress == Some(current) && !Truthy(s.after.qrCode)
      && var e2 := encode2(CustomerUrl(req2, current));
         e2.Success? ==> Generate(s.after, req2, current, encode2, writeOk2).after.qrCode == Some(e2.value)
  {
  }

  /** Once a non-empty code has been returned for a non-empty MAC, the next
      call with that MAC returns the same code and writes nothing, whatever
      the encoder and the disk would do. */
  lemma NextCallCached(r: Record, req: Request, current: string, encode: Encoder, writeOk: bool,
                       req2: Request, encode2: Encoder, writeOk2: bool)
    requires current != ""
    requires var s := Generate(r, req, current, encode, writeOk); s.result.Success? && s.result.value != ""
    ensures var s := Generate(r, req, current, encode, writeOk);
      Generate(s.after, req2, current, encode2, writeOk2) == Step(s.after, [], s.result)
  {
  }

  /** A failed write after a successful encoding throws, yet keeps the code in
      memory: the next call serves it without writing it. */
  lemma UnwrittenCodeIsServed(r: Record, req: Request, current: string, encode: Encoder,
                              req2: Request, encode2: Encoder, writeOk2: bool)
    requires current != "" && !Cached(r, current)
    requires var e := encode(CustomerUrl(req, current)); e.Success? && e.value != ""
    ensures var s := Generate(r, req, current, encode, false);
      && s.result == Failure(WriteFailed) && s.persisted == []
      && Generate(s.after, req2, current, encode2, writeOk2)
         == Step(s.after, [], Success(encode(CustomerUrl(req, current)).value))
  {
  }

  /** A record pushed by a `sendFile` whose write failed stays in memory and
      is part of the snapshot written by the next successful `sendFile`. */
  lemma FailedTransferWrittenLater(r: Record, id1: string, n1: string, d1: string, t1: string,
                                   id2: string, n2: string, d2: string, t2: string)
    ensures var first := Transfer(r, id1, n1, d1, t1, false);
      var second := Transfer(first.after, id2, n2, d2, t2, true);
      && first.persisted == []
      && second.persisted == [second.after]
      && second.after.files == r.files + [FileRecord(n1, d1, t1), FileRecord(n2, d2, t2)]
  {
  }

  /** The repeated calls of a run never change `qrCode` or `macAddress` while
      the code is cached for the MAC every call sees: each returns the stored
      code, and every snapshot written, by transfers only, carries that code. */
  lemma {:induction false} CachedRunKeepsCode(r: Record, current: string, ops: seq<Op>)
    requires Cached(r, current)
    requires forall k :: 0 <= k < |ops| && ops[k].GenerateOp? ==> ops[k].current == current
    ensures var t := Run(r, ops);
      && t.after.qrCode == r.qrCode && t.after.macAddress == r.macAddress
      && (forall k :: 0 <= k < |t.results| ==> t.results[k] == Success(r.qrCode.value))
      && (forall k :: 0 <= k < |t.persisted| ==> t.persisted[k].qrCode == r.qrCode)
    decreases |ops|
  {
    if |ops| > 0 {
      var rest := ops[1..];
      assert forall k :: 0 <= k < |rest| && rest[k].GenerateOp? ==> rest[k].current == current by {
        forall k | 0 <= k < |rest| ensures rest[k] == ops[k + 1] { }
      }
      match ops[0]
      case GenerateOp(req, cur, encode, writeOk) =>
        var s := Generate(r, req, cur, encode, writeOk);
        assert s == Step(r, [], Success(r.qrCode.value));
        CachedRunKeepsCode(s.after, current, rest);
      case SendFileOp(merchantId, fileName, fileData, timestamp, writeOk) =>
        var d := Transfer(r, merchantId, fileName, fileData, timestamp, writeOk);
        CachedRunKeepsCode(d.after, current, rest);
    }
  }

  /** `files` only grows: the initial list is a prefix of the final one and
      of every snapshot written during a run, and each snapshot's list is a
      prefix of the final one. */
  lemma {:induction false} RunFilesAppendOnly(r: Record, ops: seq<Op>)
    ensures var t := Run(r, ops);
      && r.files <= t.after.files
      && (forall k :: 0 <= k < |t.persisted| ==> r.files <= t.persisted[k].files <= t.after.files)
    decreases |ops|
  {
    if |ops| > 0 {
      var rest := ops[1..];
      match ops[0]
      case GenerateOp(req, cur, encode, writeOk) =>
        var s := Generate(r, req, cur, encode, writeOk);
        RunFilesAppendOnly(s.after, rest);
      case SendFileOp(merchantId, fileName, fileData, timestamp, writeOk) =>
        var d := Transfer(r, merchantId, fileName, fileData, timestamp, writeOk);
        RunFilesAppendOnly(d.after, rest);
        assert r.files <= d.after.files;
    }
  }
}

# merchant_qr: merchant record, MAC identity and QR cache

A Dafny model of the state kept by `server.js`. That state is one
module-level record, `merchantData = {qrCode, macAddress, files}`, shared by
every HTTP request and socket event. The model covers:

- how the merchant's MAC address is chosen from the host's network interfaces (`getMacAddress`);
- how a MAC change clears the cached QR code (`checkAndUpdateMacAddress`);
- when the QR code is re-encoded, stored and written to `merchant_data.json` (`generateQRCode`);
- how a transferred file is appended, written and announced (the `sendFile` socket handler);
- how the default record is built at startup (`loadMerchantData`).

Layout:

- `wrappers.dfy`: `Option` (JavaScript `null`) and `Result` (a value or a thrown error).
- `interfaces.dfy`: the MAC selection. `SelectMac` is the reference function. `GetMacAddress` is the nested loop with early return, proved equal to it.
- `merchant_record.dfy`: the record as a value. The pure rules `CheckMac`, `Generate`, `Transfer` map the old record to the new one. Each rule also returns the snapshots it writes to the data file and the events it emits. `Run` applies a sequence of calls, and lemmas relate several calls.
- `server.dfy`: class `MerchantData`, with the record's fields updated in place and `persisted`, the log of file writes. Each method is proved to leave exactly the state the matching pure rule gives.

How the host dependencies are represented:

- `os.networkInterfaces()` is an input table: one sequence of `(internal, mac)` entries per interface, in key-enumeration order.
- `QRCode.toDataURL` is an `Encoder` parameter, a total function that returns a code or an error.
- Each `fs.writeFileSync` is a `writeOk` flag. A successful write appends a snapshot of the record to `persisted`. `JSON.stringify`/`JSON.parse` are taken to round-trip the record unchanged.
- `new Date().toLocaleString()` is an opaque timestamp string.
- Socket emits are returned as a list of `Emit(target, name, payload)`. The target is either the room `merchantId` or the sending socket.

JavaScript truthiness is kept. `!merchantData.macAddress` and `!merchantData.qrCode` are true for `null` and for the empty string (`Truthy`). So for a current MAC of `""` every call goes through the first-use branch and encodes again. The caching guarantees therefore assume a non-empty MAC and a non-empty code.

Behaviour worth noting:

- There is a single shared record. The `merchantId` sent over the socket never selects a record; it only names the room that `receiveFile` is emitted to.
- When no interface entry qualifies, the MAC is the string `"unknown-mac"`.
- A failed write in `sendFile` leaves the appended record in memory. The next successful write puts it on disk.
- If the encoding succeeds but the write in `generateQRCode` fails, the new code is already stored in memory. The call throws, and the next call serves that code without writing it.
- Transfers are never removed from `files`. The record holds no presence information.

## Model

| member | source | states |
|---|---|---|
| Interfaces.FirstQualifyingMacSpec | server.js:34-38 | Within one interface: no MAC exactly when no entry is non-internal with a non-zero MAC; otherwise the MAC of the first such entry. |
| Interfaces.SelectMacSpec | server.js:31-41 | The chosen MAC is that of the first qualifying entry in interface-then-entry order; `"unknown-mac"` when no entry qualifies. |
| Interfaces.GetMacAddress | server.js:31-41 | The two nested loops with early return compute exactly `SelectMac` of the interface table. |
| MerchantRecord.CheckMac | server.js:44-63 | Afterwards the stored MAC is the current one in every branch and `files` is untouched. It reports a change exactly when the stored MAC was set (truthy) and different. The code is kept exactly when the stored MAC was set and equal; otherwise it is cleared to null. |
| MerchantRecord.CustomerUrlDeterminesMac | server.js:73 | For one request, two customer URLs are equal exactly when they carry the same MAC. |
| MerchantRecord.Generate | server.js:66-86 | The MAC is updated and `files` untouched. A write, if any, is a snapshot of the record after the code was stored. A returned code is the stored one. When the code is cached for the current MAC, the record is unchanged, nothing is written and the stored code is returned, whatever the encoder does. Otherwise the URL of the current MAC is encoded. On encoder failure its error is thrown, nothing is written and no usable code is stored. On success the code is stored, then written and returned, or the write error is thrown. |
| MerchantRecord.FirstUseEncodes | server.js:48-76 | With no stored MAC (`null` or `""`) the check reports no change but clears the code, so the same call encodes the current MAC's URL and stores the result. |
| MerchantRecord.MacChangeReencodes | server.js:55-76 | A different stored MAC forces encoding of a URL that differs from the old MAC's URL; the stored code is the new encoding, or null if encoding fails. |
| MerchantRecord.RetryAfterEncodeFailure | server.js:75-82 | After an encoder failure nothing is written, the MAC keeps its updated value and no usable code is stored, so the next call with the same MAC encodes again. |
| MerchantRecord.NextCallCached | server.js:68-85 | After a call returns a non-empty code for a non-empty MAC, the next call with that MAC returns the same code, leaves the record unchanged and writes nothing, whatever the encoder or disk would do. |
| MerchantRecord.UnwrittenCodeIsServed | server.js:76-85 | When the encoding succeeds and the write fails, the call throws the write error but keeps the code, and the next call serves it without writing. |
| MerchantRecord.Transfer | server.js:128-145 | Exactly one record `{fileName, fileData, timestamp}` is appended at the end of `files`, with `qrCode` and `macAddress` unchanged. On a successful write the snapshot is written, then `receiveFile` is emitted to room `merchantId` only. On write failure nothing is written and only the sender gets `"error"`. |
| MerchantRecord.FailedTransferWrittenLater | server.js:136-144 | A record appended by a `sendFile` whose write failed stays in memory and is part of the snapshot that the next successful `sendFile` writes. |
| MerchantRecord.CachedRunKeepsCode | server.js:66-86 | In any run of calls that all see the cached MAC, every QR request returns the stored code, `qrCode` and `macAddress` never change, and every snapshot written carries that code. Interleaved transfers do not affect this. |
| MerchantRecord.RunFilesAppendOnly | server.js:131-139 | `files` only grows over any run of calls: the initial list is a prefix of every snapshot written and of the final list, and each snapshot's list is a prefix of the final one. |
| Server.MerchantData.Load | server.js:18-28 | Startup state is the stored record when the data file exists, otherwise `{qrCode: null, macAddress: null, files: []}`, with no writes yet. |
| Server.MerchantData.CheckAndUpdateMacAddress | server.js:44-63 | The in-place update leaves exactly the record and change flag `CheckMac` gives for the MAC selected from the interfaces, and writes nothing. |
| Server.MerchantData.GenerateQRCode | server.js:66-86 | The in-place update leaves exactly `Generate`'s record, appends exactly its snapshots to the write log, and returns its result. |
| Server.MerchantData.SendFile | server.js:128-145 | The in-place update leaves exactly `Transfer`'s record, appends its snapshots to the write log and returns its events in order. |
| Server.RestartRestoresLastWrite | server.js:18-28 | Starting with no data file, a successful QR request followed by a restart from the last written file yields the code of the current MAC's URL together with that MAC and no transfers. |

## Left out

- Express routing, view rendering, static files, the error middleware and `server.listen` (server.js:8-12, 92-112, 153-160): transport plumbing. The two routes only call `generateQRCode` and turn a thrown error into status 500.
- The `join`, `checkMerchantStatus` and `disconnect` socket handlers (server.js:118-126, 147-149): they only call into room state kept by socket.io, not by the program. `join` and `disconnect` also send `merchantStatus` (`"online"`, `"offline"`) to every connected socket with `io.emit` (server.js:120, 148); these global emits are not modelled either.
- Reading the data file at startup (`fs.existsSync`, `readFileSync`, `JSON.parse`): the stored record is an input of `Load`. A corrupt file, which makes `JSON.parse` throw at startup, is not modelled.
- The encoder's output format and the actual bytes on disk: the encoder is an abstract parameter, and the file is the log of written snapshots.
- Missing fields in a `sendFile` payload (JavaScript `undefined`): the three fields are modelled as strings.
- Console logging and `async` interleaving: the model assumes no other call runs during the `await` of the encoder at server.js:76, but the source permits it. In the source a `sendFile` push could then land in the snapshot written at server.js:77, two concurrent requests could both encode, and a MAC change seen by a second request could make the first store a code for the old MAC's URL next to the new MAC.
- Order between writes and emits: write snapshots and emitted events are returned as two separate lists, so the model states that `receiveFile` is emitted exactly when the write succeeded, not the order of the two within one call or across a run. `Server.MerchantData.SendFile` performs the write before the emit, as server.js:139-140 does.

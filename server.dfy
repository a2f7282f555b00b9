/** The mutable state of server.js: the single `merchantData` object that
    every request and socket event shares, updated in place. The data file
    is modelled by `persisted`, the snapshots written to it, oldest first;
    the host's interface table, the encoder, the outcome of each file write
    and the clock's timestamp are inputs of the calls. */
module Server {
  import opened Wrappers
  import opened Interfaces
  import opened MerchantRecord

  class MerchantData {
    var qrCode: Option<string>
    var macAddress: Option<string>
    var files: seq<FileRecord>
    /** Every record written to the data file by this process, in order. */
    var persisted: seq<Record>

    /** The record as `JSON.stringify` would see it. */
    function Snapshot(): Record
      reads this
    {
      Record(qrCode, macAddress, files)
    }

    /** `loadMerchantData`: the record read back from the data file when one
        exists, the default record otherwise. */
    constructor Load(stored: Option<Record>)
      ensures Snapshot() == (if stored.Some? then stored.value else Default)
      ensures persisted == []
    {
      var r := if stored.Some? then stored.value else Default;
      qrCode, macAddress, files := r.qrCode, r.macAddress, r.files;
      persisted := [];
    }

    /** `checkAndUpdateMacAddress`, reading the MAC from the host's interfaces. */
    method CheckAndUpdateMacAddress(ifaces: seq<seq<NetInfo>>) returns (changed: bool)
      modifies this
      ensures Checked(Snapshot(), changed) == CheckMac(old(Snapshot()), SelectMac(ifaces))
      ensures persisted == old(persisted)
    {
      var current := GetMacAddress(ifaces);
      if !Truthy(macAddress) {
        macAddress := Some(current);
        qrCode := None;
        return false;
      }
      if macAddress.value != current {
        macAddress := Some(current);
        qrCode := None;
        return true;
      }
      return false;
    }

    /** `generateQRCode`: the result is the code, or what was thrown. */
    method GenerateQRCode(ifaces: seq<seq<NetInfo>>, req: Request, encode: Encoder, writeOk: bool)
      returns (res: Result<string, Failure>)
      modifies this
      ensures var s := Generate(old(Snapshot()), req, SelectMac(ifaces), encode, writeOk);
        Snapshot() == s.after && persisted == old(persisted) + s.persisted && res == s.result
    {
      var changed := CheckAndUpdateMacAddress(ifaces);
      if changed || !Truthy(qrCode) {
        var url := CustomerUrl(req, macAddress.value);
        var e := encode(url);
        if e.Failure? {
          return Failure(EncodeFailed(e.error));
        }
        qrCode := Some(e.value);
        if !writeOk {
          return Failure(WriteFailed);
        }
        persisted := persisted + [Snapshot()];
      }
      return Success(qrCode.value);
    }

    /** The `sendFile` handler; returns the events it emits, in order. */
    method SendFile(merchantId: string, fileName: string, fileData: string, timestamp: string, writeOk: bool)
      returns (events: seq<Event>)
      modifies this
      ensures var d := Transfer(old(Snapshot()), merchantId, fileName, fileData, timestamp, writeOk);
        Snapshot() == d.after && persisted == old(persisted) + d.persisted && events == d.events
    {
      var fileRecord := FileRecord(fileName, fileData, timestamp);
      files := files + [fileRecord];
      if writeOk {
        persisted := persisted + [Snapshot()];
        events := [Emit(Room(merchantId), "receiveFile", File(fileRecord))];
      } else {
        events := [Emit(Sender, "error", Message(SaveError))];
      }
    }
  }

  /** A first start with no data file, one QR request whose encoding and
      write succeed, then a restart from the file: the reloaded record holds
      the code of the current MAC's URL, the MAC, and no transfers. */
  method RestartRestoresLastWrite(ifaces: seq<seq<NetInfo>>, req: Request, encode: Encoder)
    returns (res: Result<string, Failure>, reloaded: Record)
    requires encode(CustomerUrl(req, SelectMac(ifaces))).Success?
    ensures res == Success(encode(CustomerUrl(req, SelectMac(ifaces))).value)
    ensures reloaded == Record(Some(res.value), Some(SelectMac(ifaces)), [])
  {
    var m := new MerchantData.Load(None);
    res := m.GenerateQRCode(ifaces, req, encode, true);
    var restarted := new MerchantData.Load(Some(m.persisted[|m.persisted| - 1]));
    reloaded := restarted.Snapshot();
  }
}

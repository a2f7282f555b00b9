/** Choice of the merchant's MAC address from the host's network interfaces
    (`getMacAddress` in server.js). The interface table that
    `os.networkInterfaces()` returns is an input: one sequence of entries per
    interface, in the order the object's keys are enumerated. */
module Interfaces {
  import opened Wrappers

  /** One address entry of an interface: only the two fields the selection reads. */
  datatype NetInfo = NetInfo(internal: bool, mac: string)

  /** The all-zero hardware address that is never chosen. */
  const ZeroMac: string := "00:00:00:00:00:00"

  /** Returned when no entry qualifies. */
  const UnknownMac: string := "unknown-mac"

  /** An entry is usable when it is not internal and its MAC is not all zeros. */
  predicate Qualifies(n: NetInfo) {
    !n.internal && n.mac != ZeroMac
  }

  /** The MAC of the first usable entry of one interface, if any. */
  function FirstQualifyingMac(entries: seq<NetInfo>): Option<string> {
    if |entries| == 0 then None
    else if Qualifies(entries[0]) then Some(entries[0].mac)
    else FirstQualifyingMac(entries[1..])
  }

  /** The MAC chosen from the whole table: interfaces in order, entries in order. */
  function SelectMac(ifaces: seq<seq<NetInfo>>): string {
    if |ifaces| == 0 then UnknownMac
    else match FirstQualifyingMac(ifaces[0])
      case Some(m) => m
      case None => SelectMac(ifaces[1..])
  }

  /** Entry `j` of interface `i` qualifies and no entry before it, in
      interface-then-entry order, does. */
  ghost predicate IsFirstQualifying(ifaces: seq<seq<NetInfo>>, i: int, j: int) {
    && 0 <= i < |ifaces| && 0 <= j < |ifaces[i]|
    && Qualifies(ifaces[i][j])
    && (forall i', j' :: 0 <= i' < i && 0 <= j' < |ifaces[i']| ==> !Qualifies(ifaces[i'][j']))
    && (forall j' :: 0 <= j' < j ==> !Qualifies(ifaces[i][j']))
  }

  /** No entry of any interface qualifies. */
  ghost predicate NoneQualifies(ifaces: seq<seq<NetInfo>>) {
    forall i, j :: 0 <= i < |ifaces| && 0 <= j < |ifaces[i]| ==> !Qualifies(ifaces[i][j])
  }

  /** Entry `j` is the first usable entry of one interface. */
  ghost predicate FirstAt(entries: seq<NetInfo>, j: int) {
    0 <= j < |entries| && Qualifies(entries[j]) && forall j' :: 0 <= j' < j ==> !Qualifies(entries[j'])
  }

  /** Within one interface: no MAC exactly when no entry qualifies, and
      otherwise the MAC of the first entry that does. */
  lemma {:induction false} FirstQualifyingMacSpec(entries: seq<NetInfo>)
    ensures FirstQualifyingMac(entries).None? <==> forall j :: 0 <= j < |entries| ==> !Qualifies(entries[j])
    ensures FirstQualifyingMac(entries).Some? ==>
      exists j :: FirstAt(entries, j) && FirstQualifyingMac(entries).value == entries[j].mac
  {
    if |entries| == 0 {
    } else if Qualifies(entries[0]) {
      assert FirstAt(entries, 0);
    } else {
      var rest := entries[1..];
      FirstQualifyingMacSpec(rest);
      if FirstQualifyingMac(rest).Some? {
        var j :| FirstAt(rest, j) && FirstQualifyingMac(rest).value == rest[j].mac;
        assert FirstAt(entries, j + 1) by {
          forall j' | 0 <= j' < j + 1 ensures !Qualifies(entries[j']) {
            if j' > 0 { assert entries[j'] == rest[j' - 1]; }
          }
        }
      } else {
        forall j | 0 <= j < |entries| ensures !Qualifies(entries[j]) {
          if j > 0 { assert entries[j] == rest[j - 1]; }
        }
      }
    }
  }

  /** The selection returns the MAC of the first usable entry in
      interface-then-entry order, and the sentinel when there is none. */
  lemma {:induction false} SelectMacSpec(ifaces: seq<seq<NetInfo>>)
    ensures NoneQualifies(ifaces) ==> SelectMac(ifaces) == UnknownMac
    ensures !NoneQualifies(ifaces) ==>
      exists i, j :: IsFirstQualifying(ifaces, i, j) && SelectMac(ifaces) == ifaces[i][j].mac
  {
    if |ifaces| == 0 {
    } else {
      var rest := ifaces[1..];
      FirstQualifyingMacSpec(ifaces[0]);
      match FirstQualifyingMac(ifaces[0])
      case Some(m) =>
        var j :| FirstAt(ifaces[0], j) && m == ifaces[0][j].mac;
        assert IsFirstQualifying(ifaces, 0, j);
      case None =>
        SelectMacSpec(rest);
        if NoneQualifies(rest) {
          forall i, j | 0 <= i < |ifaces| && 0 <= j < |ifaces[i]| ensures !Qualifies(ifaces[i][j]) {
            if i > 0 { assert ifaces[i] == rest[i - 1]; }
          }
        } else {
          var i, j :| IsFirstQualifying(rest, i, j) && SelectMac(rest) == rest[i][j].mac;
          assert IsFirstQualifying(ifaces, i + 1, j) by {
            forall i', j' | 0 <= i' < i + 1 && 0 <= j' < |ifaces[i']| ensures !Qualifies(ifaces[i'][j']) {
              if i' > 0 { assert ifaces[i'] == rest[i' - 1]; }
            }
          }
          assert !NoneQualifies(ifaces) by { assert ifaces[i + 1] == rest[i]; }
        }
    }
  }

  /** `getMacAddress`: scans the interfaces and their entries in order and
      returns at the first usable entry. */
  method GetMacAddress(ifaces: seq<seq<NetInfo>>) returns (mac: string)
    ensures mac == SelectMac(ifaces)
  {
    var i := 0;
    while i < |ifaces|
      invariant 0 <= i <= |ifaces|
      invariant SelectMac(ifaces[i..]) == SelectMac(ifaces)
    {
      var entries := ifaces[i];
      var j := 0;
      while j < |entries|
        invariant 0 <= j <= |entries|
        invariant FirstQualifyingMac(entries[j..]) == FirstQualifyingMac(entries)
      {
        if Qualifies(entries[j]) {
          return entries[j].mac;
        }
        assert entries[j..][1..] == entries[j + 1..];
        j := j + 1;
      }
      assert ifaces[i..][1..] == ifaces[i + 1..];
      i := i + 1;
    }
    return UnknownMac;
  }
}

/**
  Device selection (`get_device_by_vid_pid_serial`): a first-match scan of
  the libusb device list. Each list entry is described by the outcomes of
  the libusb calls the scan makes on it; the scan is a loop proved against
  the functions `FirstAcceptable` (which entry it picks) and `SelectionLog`
  (which calls it makes, in order), and the lemmas below state the
  resource discipline of that call sequence.
*/
module Selector {

  import opened Optional
  import opened Usb

  /** One entry of the device list. `serial` is what
      `libusb_get_string_descriptor_ascii` writes before its terminating NUL. */
  datatype Candidate = Candidate(
    descriptorOk: bool,        // libusb_get_device_descriptor returned 0
    idVendor: bv16,
    idProduct: bv16,
    openOk: bool,              // libusb_open returned 0
    handle: Handle,            // the handle libusb_open produced
    serialOk: bool,            // the serial number read returned >= 0
    serial: seq<bv8>)

  /** The result of `libusb_get_device_list`: a negative count, or the list. */
  datatype DeviceList = ListFailed | Devices(list: seq<Candidate>)

  /** The arguments of the scan: ids and the optional serial filter (NULL = None). */
  datatype Query = Query(vid: bv16, pid: bv16, filter: Option<seq<bv8>>)

  /** A serial read into the 64-byte buffer holds at most 63 bytes and no NUL before its end. */
  predicate SerialFits(c: Candidate)
  {
    0 !in c.serial && |c.serial| < 64
  }

  /** The filter is a C string: it holds no NUL. */
  predicate FilterIsCString(q: Query)
  {
    q.filter.Some? ==> 0 !in q.filter.value
  }

  /** C `strncmp` on two NUL-terminated byte buffers, comparing as unsigned
      char: 0 when the first `n` bytes agree up to a shared NUL, otherwise the
      difference of the first pair of bytes that differ. */
  function Strncmp(a: seq<bv8>, b: seq<bv8>, n: nat): (r: int)
    requires 0 in a && 0 in b
    ensures -255 <= r <= 255
    ensures n == 0 ==> r == 0
    ensures n > 0 && a[0] != b[0] ==> r != 0 && (r > 0 <==> a[0] > b[0])
    ensures n > 0 && a[0] == b[0] == 0 ==> r == 0
    ensures forall k :: 0 <= k < n && k < |a| && k < |b| && a[..k + 1] == b[..k + 1] && a[k] == 0 ==> r == 0
  {
    if n == 0 then 0
    else if a[0] != b[0] then a[0] as int - b[0] as int
    else if a[0] == 0 then 0
    else
      assert 0 in a[1..] && 0 in b[1..] by {
        var i :| 0 <= i < |a| && a[i] == 0;
        var j :| 0 <= j < |b| && b[j] == 0;
        assert a[1..][i - 1] == 0 && b[1..][j - 1] == 0;
      }
      assert forall k :: 1 <= k < n && k < |a| && k < |b| && a[..k + 1] == b[..k + 1] ==>
        a[1..][..k] == b[1..][..k] by {
        forall k | 1 <= k < n && k < |a| && k < |b| && a[..k + 1] == b[..k + 1]
          ensures a[1..][..k] == b[1..][..k]
        {
          assert a[1..][..k] == a[..k + 1][1..];
          assert b[1..][..k] == b[..k + 1][1..];
        }
      }
      Strncmp(a[1..], b[1..], n - 1)
  }

  /** `strncmp(filter, serial, strlen(filter)) == 0` holds exactly when the
      filter is a byte prefix of the serial; a filter longer than the serial
      fails at the serial's NUL. */
  lemma {:induction false} StrncmpIsPrefixTest(f: seq<bv8>, s: seq<bv8>)
    requires 0 !in f && 0 !in s
    ensures Strncmp(f + [0], s + [0], |f|) == 0 <==> f <= s
  {
    if f != [] {
      if s == [] {
        assert (s + [0])[0] == 0 != f[0];
      } else if f[0] == s[0] {
        assert (f + [0])[1..] == f[1..] + [0];
        assert (s + [0])[1..] == s[1..] + [0];
        assert f[0] in f;
        StrncmpIsPrefixTest(f[1..], s[1..]);
        assert f <= s <==> f[1..] <= s[1..];
      }
    }
  }

  /** The id test: the scan skips an entry only when BOTH ids differ. An
      entry carrying both wanted ids passes, and one carrying neither fails. */
  function IdTestPasses(c: Candidate, q: Query): (pass: bool)
    ensures c.idVendor == q.vid && c.idProduct == q.pid ==> pass
    ensures pass ==> c.idVendor == q.vid || c.idProduct == q.pid
  {
    !(c.idVendor != q.vid && c.idProduct != q.pid)
  }

  /** The serial test, with the filter seen as a byte prefix. */
  predicate SerialTestPasses(c: Candidate, q: Query)
  {
    q.filter.Some? ==> c.serialOk && q.filter.value <= c.serial
  }

  /** An entry the scan returns when it reaches it. */
  predicate Acceptable(c: Candidate, q: Query)
  {
    c.descriptorOk && IdTestPasses(c, q) && c.openOk && SerialTestPasses(c, q)
  }

  /** The first acceptable entry at or after `from`, in list order. */
  function FirstAcceptable(cs: seq<Candidate>, q: Query, from: nat): (k: Option<nat>)
    requires from <= |cs|
    ensures k.Some? ==> from <= k.value < |cs| && Acceptable(cs[k.value], q)
    ensures k.Some? ==> forall j :: from <= j < k.value ==> !Acceptable(cs[j], q)
    ensures k.None? ==> forall j :: from <= j < |cs| ==> !Acceptable(cs[j], q)
    decreases |cs| - from
  {
    if from == |cs| then None
    else if Acceptable(cs[from], q) then Some(from)
    else FirstAcceptable(cs, q, from + 1)
  }

  /** The list index the scan settles on, if any. */
  function Chosen(devices: DeviceList, q: Query): Option<nat>
  {
    match devices
    case ListFailed => None
    case Devices(cs) => FirstAcceptable(cs, q, 0)
  }

  /** The handle the scan returns (None for NULL). */
  function SelectedHandle(devices: DeviceList, q: Query): Option<Handle>
  {
    match Chosen(devices, q)
    case None => None
    case Some(k) => Some(devices.list[k].handle)
  }

  /** The acquire/release calls the scan makes on entry `i`. */
  function CandidateCalls(c: Candidate, i: nat, q: Query): seq<Call>
  {
    if !c.descriptorOk || !IdTestPasses(c, q) || !c.openOk then []
    else if !SerialTestPasses(c, q) then [OpenDevice(i), CloseDevice(i)]
    else [OpenDevice(i)]
  }

  /** The calls the scan makes on the first `n` entries. */
  function ScanCalls(cs: seq<Candidate>, q: Query, n: nat): seq<Call>
    requires n <= |cs|
  {
    if n == 0 then [] else ScanCalls(cs, q, n - 1) + CandidateCalls(cs[n - 1], n - 1, q)
  }

  /** The number of entries the scan visits. */
  function Visited(cs: seq<Candidate>, q: Query): nat
  {
    match FirstAcceptable(cs, q, 0)
    case None => |cs|
    case Some(k) => k + 1
  }

  /** Every call the scan makes, in order. */
  function SelectionLog(devices: DeviceList, q: Query): seq<Call>
  {
    match devices
    case ListFailed => [GetDeviceList]
    case Devices(cs) => [GetDeviceList] + ScanCalls(cs, q, Visited(cs, q)) + [FreeDeviceList]
  }

  /** `get_device_by_vid_pid_serial`. The ghost `log` records the calls the
      scan makes; the lemmas about `SelectionLog` state what they amount to. */
  method GetDeviceByVidPidSerial(devices: DeviceList, q: Query)
    returns (h: Option<Handle>, ghost log: seq<Call>)
    requires FilterIsCString(q)
    requires devices.Devices? ==> forall c <- devices.list :: SerialFits(c)
    ensures h == SelectedHandle(devices, q)
    ensures log == SelectionLog(devices, q)
  {
    log := [GetDeviceList];
    if devices.ListFailed? {
      return None, log;
    }
    var cs := devices.list;
    for i := 0 to |cs|
      invariant forall j :: 0 <= j < i ==> !Acceptable(cs[j], q)
      invariant log == [GetDeviceList] + ScanCalls(cs, q, i)
    {
      var c := cs[i];
      if !c.descriptorOk {
        continue;
      }
      if c.idVendor != q.vid && c.idProduct != q.pid {
        continue;
      }
      if !c.openOk {
        continue;
      }
      log := log + [OpenDevice(i)];
      if q.filter.Some? {
        if !c.serialOk {
          log := log + [CloseDevice(i)];
          continue;
        }
        assert c in cs;
        StrncmpIsPrefixTest(q.filter.value, c.serial);
        if Strncmp(q.filter.value + [0], c.serial + [0], |q.filter.value|) != 0 {
          log := log + [CloseDevice(i)];
          continue;
        }
      }
      log := log + [FreeDeviceList];
      return Some(c.handle), log;
    }
    log := log + [FreeDeviceList];
    return None, log;
  }

  /** The scan's calls on the first `n` entries only open and close those entries. */
  lemma {:induction false} ScanCallsTouchVisitedOnly(cs: seq<Candidate>, q: Query, n: nat)
    requires n <= |cs|
    ensures forall e <- ScanCalls(cs, q, n) :: (e.OpenDevice? || e.CloseDevice?) && e.index < n
  {
    if n > 0 {
      ScanCallsTouchVisitedOnly(cs, q, n - 1);
    }
  }

  /** The calls the scan makes on a rejected entry: nothing, or an open
      immediately undone by a close. */
  lemma RejectedEntryCalls(c: Candidate, i: nat, q: Query)
    requires !Acceptable(c, q)
    ensures CandidateCalls(c, i, q) == [] || CandidateCalls(c, i, q) == [OpenDevice(i), CloseDevice(i)]
  {
  }

  /** Every open in `calls` is followed at once by the close of the same
      entry, unless it is the open of entry `kept`. */
  ghost predicate ClosedAtOnce(calls: seq<Call>, kept: Option<nat>)
  {
    forall j :: 0 <= j < |calls| && calls[j].OpenDevice? && kept != Some(calls[j].index) ==>
      j + 1 < |calls| && calls[j + 1] == CloseDevice(calls[j].index)
  }

  /** Over entries that are all rejected, every opened handle is closed by
      the very next call. */
  lemma {:induction false} RejectedEntriesClosedAtOnce(cs: seq<Candidate>, q: Query, n: nat)
    requires n <= |cs|
    requires forall j :: 0 <= j < n ==> !Acceptable(cs[j], q)
    ensures ClosedAtOnce(ScanCalls(cs, q, n), None)
  {
    if n > 0 {
      RejectedEntriesClosedAtOnce(cs, q, n - 1);
      RejectedEntryCalls(cs[n - 1], n - 1, q);
      var prev := ScanCalls(cs, q, n - 1);
      var e := ScanCalls(cs, q, n);
      var step := CandidateCalls(cs[n - 1], n - 1, q);
      assert e == prev + step;
      forall j | 0 <= j < |e| && e[j].OpenDevice?
        ensures j + 1 < |e| && e[j + 1] == CloseDevice(e[j].index)
      {
        if j < |prev| {
          assert e[j] == prev[j];
          assert e[j + 1] == prev[j + 1];
        } else {
          assert step == [OpenDevice(n - 1), CloseDevice(n - 1)] && j == |prev|;
          assert e[j] == step[0] && e[j + 1] == step[1];
        }
      }
    }
  }

  /** Each entry is opened at most once in `calls`, and closed as often as it is opened. */
  ghost predicate Balanced(calls: seq<Call>)
  {
    forall i: nat :: Opens(calls, i) == Closes(calls, i) <= 1
  }

  /** How often entry `i` is opened in `calls`. */
  function Opens(calls: seq<Call>, i: nat): nat
  {
    multiset(calls)[OpenDevice(i)]
  }

  /** How often entry `i` is closed in `calls`. */
  function Closes(calls: seq<Call>, i: nat): nat
  {
    multiset(calls)[CloseDevice(i)]
  }

  /** Over entries that are all rejected, each entry is opened at most once
      and closed exactly as often as it is opened. */
  lemma {:induction false} RejectedEntriesBalanced(cs: seq<Candidate>, q: Query, n: nat)
    requires n <= |cs|
    requires forall j :: 0 <= j < n ==> !Acceptable(cs[j], q)
    ensures Balanced(ScanCalls(cs, q, n))
  {
    if n == 0 {
      assert ScanCalls(cs, q, n) == [];
      NothingIsBalanced();
    } else {
      RejectedEntriesBalanced(cs, q, n - 1);
      RejectedEntryCalls(cs[n - 1], n - 1, q);
      var prev := ScanCalls(cs, q, n - 1);
      var step := CandidateCalls(cs[n - 1], n - 1, q);
      if step != [] {
        NextEntryUntouched(cs, q, n - 1);
        assert ScanCalls(cs, q, n) == prev + [OpenDevice(n - 1), CloseDevice(n - 1)];
        BalancedAfterPair(prev, n - 1, ScanCalls(cs, q, n));
      } else {
        assert ScanCalls(cs, q, n) == prev;
      }
    }
  }

  lemma NothingIsBalanced()
    ensures Balanced([])
  {
    forall i: nat
      ensures Opens([], i) == Closes([], i) <= 1
    {
      var none: seq<Call> := [];
      assert multiset(none) == multiset{};
    }
  }

  /** The calls on the first `n` entries never name entry `n`. */
  lemma NextEntryUntouched(cs: seq<Candidate>, q: Query, n: nat)
    requires n <= |cs|
    ensures OpenDevice(n) !in ScanCalls(cs, q, n) && CloseDevice(n) !in ScanCalls(cs, q, n)
  {
    ScanCallsTouchVisitedOnly(cs, q, n);
  }

  /** Appending the open and close of a fresh entry keeps the calls balanced. */
  lemma BalancedAfterPair(prev: seq<Call>, k: nat, e: seq<Call>)
    requires Balanced(prev)
    requires OpenDevice(k) !in prev && CloseDevice(k) !in prev
    requires e == prev + [OpenDevice(k), CloseDevice(k)]
    ensures Balanced(e)
  {
    assert multiset(e) == multiset(prev) + multiset{OpenDevice(k), CloseDevice(k)};
    forall i: nat
      ensures Opens(e, i) == Closes(e, i) <= 1
    {
      if i == k {
        assert Opens(prev, i) == 0 && Closes(prev, i) == 0;
      } else {
        assert Opens(prev, i) == Closes(prev, i) <= 1;
      }
    }
  }

  /** A failed list acquisition frees nothing; otherwise the list is
      acquired and freed exactly once, and the free is the last call. */
  lemma {:induction false} DeviceListFreedOnce(devices: DeviceList, q: Query)
    ensures devices.ListFailed? ==> SelectionLog(devices, q) == [GetDeviceList] && SelectedHandle(devices, q).None?
    ensures var log := SelectionLog(devices, q);
      devices.Devices? ==>
        && multiset(log)[GetDeviceList] == 1
        && multiset(log)[FreeDeviceList] == 1
        && log[|log| - 1] == FreeDeviceList
  {
    if devices.Devices? {
      var cs := devices.list;
      ScanCallsTouchVisitedOnly(cs, q, Visited(cs, q));
      var e := ScanCalls(cs, q, Visited(cs, q));
      assert GetDeviceList !in e && FreeDeviceList !in e;
    }
  }

  /** The calls the scan makes when it chooses entry `k`. */
  lemma ChosenScanCalls(cs: seq<Candidate>, q: Query, k: nat)
    requires FirstAcceptable(cs, q, 0) == Some(k)
    ensures ScanCalls(cs, q, Visited(cs, q)) == ScanCalls(cs, q, k) + [OpenDevice(k)]
  {
  }

  /** Every handle opened on a rejected entry is closed by the call right
      after its open, before the next entry is looked at. */
  lemma {:induction false} RejectedHandlesClosedBeforeNext(devices: DeviceList, q: Query)
    ensures ClosedAtOnce(SelectionLog(devices, q), Chosen(devices, q))
  {
    if devices.Devices? {
      var cs := devices.list;
      var log := SelectionLog(devices, q);
      var n := match FirstAcceptable(cs, q, 0) case None => |cs| case Some(k) => k;
      var e := ScanCalls(cs, q, n);
      RejectedEntriesClosedAtOnce(cs, q, n);
      if FirstAcceptable(cs, q, 0).Some? {
        ChosenScanCalls(cs, q, n);
        assert log == [GetDeviceList] + e + [OpenDevice(n), FreeDeviceList];
      } else {
        assert log == [GetDeviceList] + e + [FreeDeviceList];
      }
      forall j | 0 <= j < |log| && log[j].OpenDevice? && Chosen(devices, q) != Some(log[j].index)
        ensures j + 1 < |log| && log[j + 1] == CloseDevice(log[j].index)
      {
        assert 1 <= j <= |e|;
        if j < |e| {
          assert log[j] == e[j - 1] && log[j + 1] == e[j];
        }
      }
    }
  }

  /** No entry after the chosen one is ever opened. */
  lemma {:induction false} NoLaterEntryOpened(devices: DeviceList, q: Query)
    ensures forall i: nat :: OpenDevice(i) in SelectionLog(devices, q) ==>
      && devices.Devices?
      && i < |devices.list|
      && (Chosen(devices, q).None? || i <= Chosen(devices, q).value)
  {
    if devices.Devices? {
      ScanCallsTouchVisitedOnly(devices.list, q, Visited(devices.list, q));
    }
  }

  /** Exactly the chosen entry's handle is left open: every other entry is
      closed as often as it is opened, and the chosen one is opened once and
      never closed. */
  lemma {:induction false} OnlyChosenHandleLeftOpen(devices: DeviceList, q: Query)
    ensures var log := SelectionLog(devices, q);
      forall i: nat :: Opens(log, i) == Closes(log, i) + (if Chosen(devices, q) == Some(i) then 1 else 0)
  {
    var log := SelectionLog(devices, q);
    if devices.ListFailed? {
      forall i: nat
        ensures Opens(log, i) == Closes(log, i) + (if Chosen(devices, q) == Some(i) then 1 else 0)
      {
        assert multiset(log) == multiset{GetDeviceList};
      }
    } else {
      var cs := devices.list;
      var scan := ScanCalls(cs, q, Visited(cs, q));
      ListCallsKeepCounts(scan, log);
      match FirstAcceptable(cs, q, 0)
      case None =>
        RejectedEntriesBalanced(cs, q, |cs|);
      case Some(k) =>
        RejectedEntriesBalanced(cs, q, k);
        ChosenScanCalls(cs, q, k);
        NextEntryUntouched(cs, q, k);
        OpenAppended(ScanCalls(cs, q, k), k, scan);
    }
  }

  /** Acquiring and freeing the device list around the scan changes no count of opens or closes. */
  lemma ListCallsKeepCounts(scan: seq<Call>, log: seq<Call>)
    requires log == [GetDeviceList] + scan + [FreeDeviceList]
    ensures forall i: nat :: Opens(log, i) == Opens(scan, i) && Closes(log, i) == Closes(scan, i)
  {
    assert multiset(log) == multiset{GetDeviceList} + multiset(scan) + multiset{FreeDeviceList};
  }

  /** Opening a fresh entry after balanced calls leaves just that entry open once. */
  lemma OpenAppended(prev: seq<Call>, k: nat, e: seq<Call>)
    requires Balanced(prev)
    requires OpenDevice(k) !in prev && CloseDevice(k) !in prev
    requires e == prev + [OpenDevice(k)]
    ensures forall i: nat :: Opens(e, i) == Closes(e, i) + (if k == i then 1 else 0)
  {
    assert multiset(e) == multiset(prev) + multiset{OpenDevice(k)};
    forall i: nat
      ensures Opens(e, i) == Closes(e, i) + (if k == i then 1 else 0)
    {
      if i == k {
        assert Opens(prev, i) == 0 && Closes(prev, i) == 0;
      } else {
        assert Opens(prev, i) == Closes(prev, i);
      }
    }
  }

  /** The id test as written passes when EITHER id matches: an entry with
      the right vendor id and any product id, or the right product id and
      any vendor id, is opened. */
  lemma IdTestAcceptsEitherId(c: Candidate, q: Query)
    ensures IdTestPasses(c, q) <==> c.idVendor == q.vid || c.idProduct == q.pid
  {
  }

  /** When no entry carries either wanted id, the scan finds nothing and
      opens nothing. */
  lemma {:induction false} NoMatchingIdsOpensNothing(devices: DeviceList, q: Query)
    requires devices.Devices? ==> forall c <- devices.list :: c.idVendor != q.vid && c.idProduct != q.pid
    ensures SelectedHandle(devices, q).None?
    ensures forall i: nat :: OpenDevice(i) !in SelectionLog(devices, q)
  {
    if devices.Devices? {
      var cs := devices.list;
      assert forall j :: 0 <= j < |cs| ==> !Acceptable(cs[j], q) by {
        forall j | 0 <= j < |cs| ensures !Acceptable(cs[j], q) {
          assert cs[j] in cs;
        }
      }
      NoIdMatchScanEmpty(cs, q, |cs|);
    }
  }

  lemma {:induction false} NoIdMatchScanEmpty(cs: seq<Candidate>, q: Query, n: nat)
    requires n <= |cs|
    requires forall j :: 0 <= j < n ==> !IdTestPasses(cs[j], q)
    ensures ScanCalls(cs, q, n) == []
  {
    if n > 0 {
      NoIdMatchScanEmpty(cs, q, n - 1);
    }
  }

  /** An empty filter accepts any serial that can be read, but a serial that
      cannot be read still rejects the entry. */
  lemma EmptyFilterNeedsReadableSerial(c: Candidate, vid: bv16, pid: bv16)
    ensures SerialTestPasses(c, Query(vid, pid, Some([]))) <==> c.serialOk
  {
  }

  /** Two boards with both wanted ids and serials "ABC123" and "ABC999":
      the filter "ABC1" takes the first and never opens the second; the
      filter "ABC9" opens and closes the first, then takes the second. */
  lemma TwoBoardsSerialFilter(a: Candidate, b: Candidate, vid: bv16, pid: bv16)
    requires a.descriptorOk && a.idVendor == vid && a.idProduct == pid && a.openOk && a.serialOk
    requires b.descriptorOk && b.idVendor == vid && b.idProduct == pid && b.openOk && b.serialOk
    requires a.serial == [0x41, 0x42, 0x43, 0x31, 0x32, 0x33]
    requires b.serial == [0x41, 0x42, 0x43, 0x39, 0x39, 0x39]
    ensures var q := Query(vid, pid, Some([0x41, 0x42, 0x43, 0x31]));
      SelectedHandle(Devices([a, b]), q) == Some(a.handle) &&
      SelectionLog(Devices([a, b]), q) == [GetDeviceList, OpenDevice(0), FreeDeviceList]
    ensures var q := Query(vid, pid, Some([0x41, 0x42, 0x43, 0x39]));
      SelectedHandle(Devices([a, b]), q) == Some(b.handle) &&
      SelectionLog(Devices([a, b]), q) == [GetDeviceList, OpenDevice(0), CloseDevice(0), OpenDevice(1), FreeDeviceList]
  {
    var q1 := Query(vid, pid, Some([0x41, 0x42, 0x43, 0x31]));
    var q9 := Query(vid, pid, Some([0x41, 0x42, 0x43, 0x39]));
    var cs := [a, b];
    assert Acceptable(a, q1);
    assert FirstAcceptable(cs, q1, 0) == Some(0);
    assert ScanCalls(cs, q1, 1) == ScanCalls(cs, q1, 0) + CandidateCalls(a, 0, q1);
    assert !Acceptable(a, q9) by {
      assert a.serial[3] != q9.filter.value[3];
    }
    assert Acceptable(b, q9);
    assert FirstAcceptable(cs, q9, 1) == Some(1);
    assert ScanCalls(cs, q9, 1) == ScanCalls(cs, q9, 0) + CandidateCalls(a, 0, q9);
    assert ScanCalls(cs, q9, 2) == ScanCalls(cs, q9, 1) + CandidateCalls(b, 1, q9);
  }
}

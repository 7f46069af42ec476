/**
  The Developerbox programmer's lifecycle and its bit-bang primitives as
  they act on the driver's two globals, `usb_ctx` and `cp210x_handle`.
  The libusb calls and the two registries are abstract: each method takes
  their outcomes as parameters and records the calls it makes in the
  ghost log `calls`. What the calls amount to is stated by the functions
  `InitCalls` and `InitStatus` and the lemmas about them.
*/
module Developerbox {

  import opened Optional
  import opened Latch
  import opened Usb
  import opened Selector

  // The single supported device: the CP2102N USB to UART bridge.
  const DeveloperboxVid: bv16 := 0x10C4
  const DeveloperboxPid: bv16 := 0xEA60

  /** The query `developerbox_spi_init` hands to the scan. */
  function InitQuery(filter: Option<seq<bv8>>): Query
  {
    Query(DeveloperboxVid, DeveloperboxPid, filter)
  }

  /** The calls `developerbox_spi_init` makes, given the context `libusb_init`
      left in `usb_ctx`, the device list, and the status codes of
      `register_shutdown` and `register_spi_bitbang_master`. */
  function InitCalls(filter: Option<seq<bv8>>, ctx: Option<Context>, devices: DeviceList,
                     shutdownStatus: int, masterStatus: int): seq<Call>
  {
    if ctx.None? then [LibusbInit]
    else
      var q := InitQuery(filter);
      var scan := [LibusbInit] + SelectionLog(devices, q);
      if SelectedHandle(devices, q).None? then scan + [LibusbExit]
      else if shutdownStatus != 0 then scan + [RegisterShutdown]
      else scan + [RegisterShutdown, RegisterBitbangMaster]
  }

  /** What `developerbox_spi_init` returns: 0 on success, 1 on any failure. */
  function InitStatus(filter: Option<seq<bv8>>, ctx: Option<Context>, devices: DeviceList,
                      shutdownStatus: int, masterStatus: int): int
  {
    if ctx.None? || SelectedHandle(devices, InitQuery(filter)).None? || shutdownStatus != 0 || masterStatus != 0
    then 1
    else 0
  }

  /** The calls `developerbox_spi_shutdown` makes. */
  function ShutdownCalls(h: Handle): seq<Call>
  {
    [CloseHandle(h), LibusbExit]
  }

  /** The driver's global state. */
  class Programmer {
    var usbCtx: Option<Context>          // usb_ctx (None for NULL)
    var cp210xHandle: Option<Handle>     // cp210x_handle (None for NULL)
    ghost var calls: seq<Call>           // every external call made so far, in order

    /** The globals before `developerbox_spi_init` runs: both NULL. */
    constructor ()
      ensures usbCtx.None? && cp210xHandle.None? && calls == []
    {
      usbCtx := None;
      cp210xHandle := None;
      calls := [];
    }

    /** `cp210x_gpio_get`: one latch read; the byte read, or 0 on a transfer
        error. (The C function returns that byte widened to `int`.) */
    method GpioGet(o: ReadOutcome) returns (v: bv8)
      requires cp210xHandle.Some?
      modifies this`calls
      ensures v == LatchReadValue(o)
      ensures calls == old(calls) + [ControlTransfer(cp210xHandle.value, ReadLatchRequest())]
    {
      calls := calls + [ControlTransfer(cp210xHandle.value, ReadLatchRequest())];
      if o.res < 0 {
        return 0;
      }
      return o.gpio;
    }

    /** `cp210x_gpio_set`: one latch write carrying the packed value and
        mask. The transfer's result, which the driver only logs, is not
        modelled. */
    method GpioSet(val: bv8, mask: bv8)
      requires cp210xHandle.Some?
      modifies this`calls
      ensures calls == old(calls) + [ControlTransfer(cp210xHandle.value, WriteLatchRequest(LatchWrite(val, mask)))]
    {
      var word := PackLatchWord(val, mask);
      calls := calls + [ControlTransfer(cp210xHandle.value,
        ControlRequest(ReqTypeHostToDevice, Cp210xVendorSpecific, Cp210xWriteLatch, word, 0))];
    }

    /** `cp210x_bitbang_set_cs`: exactly one latch write. */
    method SetCs(level: bv32)
      requires cp210xHandle.Some?
      modifies this`calls
      ensures calls == old(calls) + [ControlTransfer(cp210xHandle.value, WriteLatchRequest(SetCsWrite(level)))]
    {
      GpioSet(LowByte(level << CsBit), LowByte(1 << CsBit));
    }

    /** `cp210x_bitbang_set_sck`: exactly one latch write. */
    method SetSck(level: bv32)
      requires cp210xHandle.Some?
      modifies this`calls
      ensures calls == old(calls) + [ControlTransfer(cp210xHandle.value, WriteLatchRequest(SetSckWrite(level)))]
    {
      GpioSet(LowByte(level << SckBit), LowByte(1 << SckBit));
    }

    /** `cp210x_bitbang_set_mosi`: exactly one latch write. */
    method SetMosi(level: bv32)
      requires cp210xHandle.Some?
      modifies this`calls
      ensures calls == old(calls) + [ControlTransfer(cp210xHandle.value, WriteLatchRequest(SetMosiWrite(level)))]
    {
      GpioSet(LowByte(level << MosiBit), LowByte(1 << MosiBit));
    }

    /** `cp210x_bitbang_get_miso`: exactly one latch read; 1 when its bit 2 is set. */
    method GetMisoLevel(o: ReadOutcome) returns (level: int)
      requires cp210xHandle.Some?
      modifies this`calls
      ensures level == GetMiso(o)
      ensures calls == old(calls) + [ControlTransfer(cp210xHandle.value, ReadLatchRequest())]
    {
      var latch := GpioGet(o);
      level := if latch & (1 << MisoBit) != 0 then 1 else 0;
    }

    /** `cp210x_bitbang_set_sck_set_mosi`: exactly one latch write, not two. */
    method SetSckSetMosi(sck: bv32, mosi: bv32)
      requires cp210xHandle.Some?
      modifies this`calls
      ensures calls == old(calls) + [ControlTransfer(cp210xHandle.value, WriteLatchRequest(SetSckSetMosiWrite(sck, mosi)))]
    {
      GpioSet(LowByte((sck << SckBit) | (mosi << MosiBit)), LowByte((1 << SckBit) | (1 << MosiBit)));
    }

    /** `developerbox_spi_init`. `ctx` is what `libusb_init` leaves in `usb_ctx`;
        `devices` is what `libusb_get_device_list` reports; the two status
        codes are those of `register_shutdown` and `register_spi_bitbang_master`. */
    method Init(filter: Option<seq<bv8>>, ctx: Option<Context>, devices: DeviceList,
                shutdownStatus: int, masterStatus: int) returns (status: int)
      requires filter.Some? ==> 0 !in filter.value
      requires devices.Devices? ==> forall c <- devices.list :: SerialFits(c)
      modifies this
      ensures status == InitStatus(filter, ctx, devices, shutdownStatus, masterStatus)
      ensures calls == old(calls) + InitCalls(filter, ctx, devices, shutdownStatus, masterStatus)
      ensures usbCtx == ctx
      ensures cp210xHandle == if ctx.None? then old(cp210xHandle) else SelectedHandle(devices, InitQuery(filter))
    {
      ghost var before := calls;
      ghost var q := InitQuery(filter);
      calls := calls + [LibusbInit];
      usbCtx := ctx;
      if usbCtx.None? {
        return 1;
      }
      var h: Option<Handle>;
      ghost var scan: seq<Call>;
      h, scan := GetDeviceByVidPidSerial(devices, InitQuery(filter));
      cp210xHandle := h;
      calls := calls + scan;
      assert calls == before + ([LibusbInit] + SelectionLog(devices, q));
      if cp210xHandle.None? {
        calls := calls + [LibusbExit];
        return 1;
      }
      calls := calls + [RegisterShutdown];
      if shutdownStatus != 0 {
        return 1;
      }
      calls := calls + [RegisterBitbangMaster];
      if masterStatus != 0 {
        return 1;
      }
      return 0;
    }

    /** `developerbox_spi_shutdown`, run by the shutdown hook Init registered:
        close the handle, then tear down the context. The globals keep their
        (now stale) values. */
    method Shutdown() returns (status: int)
      requires usbCtx.Some? && cp210xHandle.Some?
      modifies this`calls
      ensures status == 0
      ensures calls == old(calls) + ShutdownCalls(cp210xHandle.value)
    {
      calls := calls + [CloseHandle(cp210xHandle.value), LibusbExit];
      return 0;
    }
  }

  /** Without a context, init fails before the scan runs and calls nothing but `libusb_init`. */
  lemma InitWithoutContext(filter: Option<seq<bv8>>, devices: DeviceList, shutdownStatus: int, masterStatus: int)
    ensures InitStatus(filter, None, devices, shutdownStatus, masterStatus) == 1
    ensures InitCalls(filter, None, devices, shutdownStatus, masterStatus) == [LibusbInit]
  {
  }

  /** When the scan finds no device, init tears the context down and fails
      before registering anything. */
  lemma InitWithoutDevice(filter: Option<seq<bv8>>, ctx: Context, devices: DeviceList, shutdownStatus: int, masterStatus: int)
    requires SelectedHandle(devices, InitQuery(filter)).None?
    ensures InitStatus(filter, Some(ctx), devices, shutdownStatus, masterStatus) == 1
    ensures var calls := InitCalls(filter, Some(ctx), devices, shutdownStatus, masterStatus);
      calls[|calls| - 1] == LibusbExit && RegisterShutdown !in calls && RegisterBitbangMaster !in calls
  {
    ScanMakesNoLifecycleCalls(devices, InitQuery(filter));
  }

  /** Init succeeds exactly when a context exists, a device is found and
      both registrations succeed; then the shutdown hook is registered
      before the bit-bang master, each once, and nothing is torn down. */
  lemma InitSuccess(filter: Option<seq<bv8>>, ctx: Option<Context>, devices: DeviceList, shutdownStatus: int, masterStatus: int)
    ensures InitStatus(filter, ctx, devices, shutdownStatus, masterStatus) == 0 <==>
      ctx.Some? && SelectedHandle(devices, InitQuery(filter)).Some? && shutdownStatus == 0 && masterStatus == 0
    ensures var calls := InitCalls(filter, ctx, devices, shutdownStatus, masterStatus);
      InitStatus(filter, ctx, devices, shutdownStatus, masterStatus) == 0 ==>
        && calls[|calls| - 2] == RegisterShutdown
        && calls[|calls| - 1] == RegisterBitbangMaster
        && multiset(calls)[RegisterShutdown] == 1
        && multiset(calls)[RegisterBitbangMaster] == 1
        && LibusbExit !in calls
  {
    if ctx.Some? {
      ScanMakesNoLifecycleCalls(devices, InitQuery(filter));
    }
  }

  /** A registration failure makes init return 1 without closing the
      selected handle or tearing down the context. */
  lemma RegistrationFailureKeepsResources(filter: Option<seq<bv8>>, ctx: Context, devices: DeviceList, shutdownStatus: int, masterStatus: int)
    requires SelectedHandle(devices, InitQuery(filter)).Some?
    requires shutdownStatus != 0 || masterStatus != 0
    ensures InitStatus(filter, Some(ctx), devices, shutdownStatus, masterStatus) == 1
    ensures var calls := InitCalls(filter, Some(ctx), devices, shutdownStatus, masterStatus);
      var k := Chosen(devices, InitQuery(filter)).value;
      LibusbExit !in calls && multiset(calls)[OpenDevice(k)] == multiset(calls)[CloseDevice(k)] + 1
  {
    var q := InitQuery(filter);
    ScanMakesNoLifecycleCalls(devices, q);
    OnlyChosenHandleLeftOpen(devices, q);
  }

  /** Once init has registered the shutdown hook, init followed by shutdown
      nests the board's handle inside the context: `libusb_init` comes
      first; the chosen entry is opened during the scan and never closed
      there; the handle shutdown closes is that entry's handle; and the
      context is exited once, as the very last call. */
  lemma InitThenShutdownNestsHandle(filter: Option<seq<bv8>>, ctx: Context, devices: DeviceList, masterStatus: int)
    requires SelectedHandle(devices, InitQuery(filter)).Some?
    ensures var q := InitQuery(filter);
      var k := Chosen(devices, q).value;
      var calls := InitCalls(filter, Some(ctx), devices, 0, masterStatus) + ShutdownCalls(SelectedHandle(devices, q).value);
      && k < |devices.list|
      && calls[0] == LibusbInit
      && OpenDevice(k) in calls[..|calls| - 2]
      && CloseDevice(k) !in calls
      && calls[|calls| - 2] == CloseHandle(devices.list[k].handle)
      && calls[|calls| - 1] == LibusbExit
      && LibusbExit !in calls[..|calls| - 1]
  {
    var q := InitQuery(filter);
    var cs := devices.list;
    var k := Chosen(devices, q).value;
    var log := SelectionLog(devices, q);
    ScanMakesNoLifecycleCalls(devices, q);
    ChosenScanCalls(cs, q, k);
    NextEntryUntouched(cs, q, k);
    assert log == [GetDeviceList] + ScanCalls(cs, q, k) + [OpenDevice(k), FreeDeviceList];
    assert OpenDevice(k) in log && CloseDevice(k) !in log;
    HandleNestedInContext(InitCalls(filter, Some(ctx), devices, 0, masterStatus), log, k, cs[k].handle);
  }

  /** The order facts of a successful init's log followed by shutdown's two calls. */
  lemma HandleNestedInContext(init: seq<Call>, log: seq<Call>, k: nat, h: Handle)
    requires init == [LibusbInit] + log + [RegisterShutdown, RegisterBitbangMaster]
    requires OpenDevice(k) in log && CloseDevice(k) !in log && LibusbExit !in log
    ensures var calls := init + ShutdownCalls(h);
      && calls[0] == LibusbInit
      && OpenDevice(k) in calls[..|calls| - 2]
      && CloseDevice(k) !in calls
      && calls[|calls| - 2] == CloseHandle(h)
      && calls[|calls| - 1] == LibusbExit
      && LibusbExit !in calls[..|calls| - 1]
  {
    var calls := init + ShutdownCalls(h);
    assert calls[..|calls| - 2] == init;
    assert calls[..|calls| - 1] == init + [CloseHandle(h)];
  }

  /** The scan itself never tears down the context or registers anything. */
  lemma {:induction false} ScanMakesNoLifecycleCalls(devices: DeviceList, q: Query)
    ensures LibusbExit !in SelectionLog(devices, q)
    ensures RegisterShutdown !in SelectionLog(devices, q)
    ensures RegisterBitbangMaster !in SelectionLog(devices, q)
  {
    if devices.Devices? {
      ScanCallsTouchVisitedOnly(devices.list, q, Visited(devices.list, q));
    }
  }

  /** One Developerbox on the bus and no serial filter: init succeeds and
      registers the bit-bang master. An empty bus: init fails and registers
      neither the shutdown hook nor the master. */
  lemma SingleBoardInit(board: Candidate, ctx: Context)
    requires board.descriptorOk && board.idVendor == DeveloperboxVid && board.idProduct == DeveloperboxPid && board.openOk
    ensures InitStatus(None, Some(ctx), Devices([board]), 0, 0) == 0
    ensures InitCalls(None, Some(ctx), Devices([board]), 0, 0)
            == [LibusbInit, GetDeviceList, OpenDevice(0), FreeDeviceList, RegisterShutdown, RegisterBitbangMaster]
    ensures InitStatus(None, Some(ctx), Devices([]), 0, 0) == 1
    ensures InitCalls(None, Some(ctx), Devices([]), 0, 0) == [LibusbInit, GetDeviceList, FreeDeviceList, LibusbExit]
  {
    var cs := [board];
    var q := InitQuery(None);
    assert Acceptable(board, q);
    assert FirstAcceptable(cs, q, 0) == Some(0);
    assert ScanCalls(cs, q, 1) == ScanCalls(cs, q, 0) + CandidateCalls(board, 0, q);
  }
}

# Developerbox SPI bit-bang driver, modelled in Dafny

This project models flashrom's `developerbox_spi.c`. The driver turns the four GPIO pins of
the CP2102N USB-to-UART bridge on a 96Boards Developerbox into a bit-banged SPI
master. The model covers three parts of it:

- **Latch I/O and the five bit-bang primitives** (`latch.dfy`, module `Latch`). These are pure
  functions over bit-vectors. They cover:
  - the fixed pin positions: SCK = bit 0, CS = bit 1, MISO = bit 2, MOSI = bit 3;
  - the two vendor control requests, as records with the setup fields of section 9.3 of the USB 2.0
    specification;
  - the packing of a value nibble and a mask nibble into one 16-bit word;
  - the (value, mask) pair that each setter hands to `cp210x_gpio_set`;
  - the MISO bit test.

  C `int` is `bv32`, `uint8_t` is `bv8` and `uint16_t` is `bv16`. The conversion to `uint8_t` keeps the
  low byte. Levels other than 0 and 1 are allowed. The contracts say which value bit each bit of such a
  level lands on: `set_cs(2)`, for example, sets the MISO value bit.
- **Device selection** (`selector.dfy`, module `Selector`). `get_device_by_vid_pid_serial` is a
  `for` loop over abstract device-list entries, with `continue` and an early `return`. Each entry records
  the outcomes of the libusb calls made on it. The method returns the handle and a ghost log of the
  acquire/release calls it made. It is proved against `FirstAcceptable`, which says which entry is
  chosen, and `SelectionLog`, which says which calls are made. Lemmas about `SelectionLog` state the
  resource discipline.
- **Lifecycle and primitives on the globals** (`developerbox.dfy`, module `Developerbox`). The class
  `Programmer` holds the globals `usb_ctx` and `cp210x_handle` and a ghost log of external calls.
  - `Init` and `Shutdown` model `developerbox_spi_init` and `developerbox_spi_shutdown`. They take the
    libusb and registry outcomes as parameters.
  - The primitive methods each record the one control transfer they issue.
  - The functions `InitCalls` and `InitStatus` specify `Init`, and lemmas state its outcomes.

`usb.dfy` (module `Usb`) holds the opaque handle and context types and the call vocabulary.
`optional.dfy` holds `Option`, which models a C pointer that may be NULL.

Three details of the code are easy to misread, and the model follows the code in each:

- The latch write sends selector `0x37E1` in **wValue** and the packed word in **wIndex**
  (developerbox_spi.c:95-97).
- The vendor/product test skips an entry only when **both** ids differ, so an entry matching either id
  is opened (developerbox_spi.c:157). `Selector.IdTestAcceptsEitherId` states this behaviour.
- The serial is read into a 64-byte buffer, so it holds at most 63 bytes before its NUL
  (developerbox_spi.c:171-172).

## Model

| member | source | states |
|---|---|---|
| `Latch.PackLatchWord` | developerbox_spi.c:87-92 | the packed word has bits 4-7 and 12-15 clear, and its value and mask nibbles are exactly `val & 0xf` and `mask & 0xf` |
| `Latch.PackLatchWordOnto` | developerbox_spi.c:92 | every word with bits 4-7 and 12-15 clear is the packing of its own two nibbles |
| `Latch.WriteLatchRequest` | developerbox_spi.c:95-97 | the write request is a host-to-device vendor request to the device, with request code 0xFF, selector 0x37E1 in wValue, no data stage, and a wIndex whose value and mask nibbles are the low nibbles of `val` and `mask`, with every other bit clear |
| `Latch.ReadLatchRequest` | developerbox_spi.c:76-78 | the read request is a device-to-host vendor request to the device, with request code 0xFF, selector 0x00C2 in wValue, index 0 and a one-byte data stage, and it never decodes as a latch write |
| `Latch.LatchReadValue` | developerbox_spi.c:79-84 | the latch byte `cp210x_gpio_get` returns is 0 when the transfer fails and the byte read otherwise |
| `Latch.DecodeWriteLatch` | developerbox_spi.c:94-97 | a request decodes to a (value, mask) pair exactly when it is some latch write (type 0x40, request 0xFF, wValue 0x37E1, packed wIndex, length 0), and re-encoding the pair gives back that request |
| `Latch.WriteLatchRoundTrip` | developerbox_spi.c:92-97 | decoding the write request built from (val, mask) gives back `val & 0xf` and `mask & 0xf` |
| `Latch.PinWrite` | developerbox_spi.c:102-115 | a single-pin setter's mask names exactly its pin; its value bit at that pin is the level's lowest bit; a level of 0 or 1 sets no value bit outside the mask |
| `Latch.SetCsWrite` | developerbox_spi.c:102-105 | `set_cs` writes mask 0b0010, with the CS value bit equal to the level's lowest bit |
| `Latch.SetSckWrite` | developerbox_spi.c:107-110 | `set_sck` writes mask 0b0001, with the SCK value bit equal to the level's lowest bit |
| `Latch.SetMosiWrite` | developerbox_spi.c:112-115 | `set_mosi` writes mask 0b1000, with the MOSI value bit equal to the level's lowest bit |
| `Latch.SetSckSetMosiWrite` | developerbox_spi.c:121-125 | the combined setter is one write with mask 0b1001; value bit 0 is sck's lowest bit; value bit 3 is mosi's lowest bit or a spill of sck's bit 3; with both levels in {0,1}, no value bit lies outside the mask |
| `Latch.GetMiso` | developerbox_spi.c:117-120 | `get_miso` returns 0 or 1; it returns 0 when the read transfer fails, and otherwise returns 1 exactly when bit 2 of the latch byte is set |
| `Latch.PinWriteChangesOnlyItsPin` | developerbox_spi.c:102-115 | under the masked-latch assumption, a single-pin setter forces its own pin to the level's lowest bit and leaves every other latch bit unchanged, for any level |
| `Latch.WritesNeverDriveMiso` | developerbox_spi.c:47-50 | under the masked-latch assumption, none of the four setters changes the MISO bit |
| `Latch.CombinedWriteMatchesTwoWrites` | developerbox_spi.c:121-125 | under the masked-latch assumption, the single combined write gives the same latch as the SCK write followed by the MOSI write, exactly when sck's bit 3 does not spill onto a MOSI level of 0 |
| `Latch.SpiEdgeWords` | developerbox_spi.c:102-125 | the wIndex words of typical SPI edges: SCK high 0x0101, SCK high with MOSI low 0x0109, CS low 0x0002, MOSI high 0x0808 |
| `Selector.Strncmp` | developerbox_spi.c:180 | `strncmp` returns a value in -255..255; it is 0 for a length of 0, or when both strings agree up to and including a NUL that lies within the first `n` bytes; when the first bytes differ, it is nonzero and positive exactly when the first byte of `a` is the larger |
| `Selector.StrncmpIsPrefixTest` | developerbox_spi.c:180 | `strncmp(filter, serial, strlen(filter)) == 0` holds exactly when the filter is a byte prefix of the serial, so a filter longer than the serial fails |
| `Selector.FirstAcceptable` | developerbox_spi.c:146-188 | the result is the first entry in list order that passes every check (descriptor read, id test, open, serial prefix when filtered), or none when no entry does |
| `Selector.GetDeviceByVidPidSerial` | developerbox_spi.c:136-192 | the scan returns the handle of the first acceptable entry (NULL if there is none or the list cannot be acquired), and it makes exactly the calls `SelectionLog` lists, in that order |
| `Selector.ScanCallsTouchVisitedOnly` | developerbox_spi.c:146-188 | the calls made on the first n entries are only opens and closes of those entries |
| `Selector.RejectedEntryCalls` | developerbox_spi.c:164-183 | on a rejected entry the scan either opens nothing, or opens the entry and then closes it |
| `Selector.RejectedEntriesClosedAtOnce` | developerbox_spi.c:173-182 | over rejected entries, each open is immediately followed by the close of the same entry |
| `Selector.RejectedEntriesBalanced` | developerbox_spi.c:164-183 | over rejected entries, each entry is opened at most once and closed as often as it is opened |
| `Selector.DeviceListFreedOnce` | developerbox_spi.c:139-191 | when list acquisition fails, the scan returns NULL and frees nothing; otherwise the list is acquired once and freed once, and the free is the last call |
| `Selector.ChosenScanCalls` | developerbox_spi.c:185-187 | when entry k is chosen, the scan's calls are those on the rejected entries before k followed by the single open of k |
| `Selector.RejectedHandlesClosedBeforeNext` | developerbox_spi.c:173-183 | every handle opened on an entry other than the chosen one is closed by the very next call, before any later entry is opened |
| `Selector.NoLaterEntryOpened` | developerbox_spi.c:185-187 | no entry after the chosen one is ever opened, and only existing entries are opened |
| `Selector.OnlyChosenHandleLeftOpen` | developerbox_spi.c:164-191 | for every entry, opens equal closes, except the chosen entry, which is opened once more than it is closed |
| `Selector.IdTestPasses` | developerbox_spi.c:157-158 | an entry carrying both wanted ids passes the id test, and an entry that passes carries at least one of them |
| `Selector.IdTestAcceptsEitherId` | developerbox_spi.c:157-158 | the id test passes exactly when the vendor id OR the product id matches |
| `Selector.NoMatchingIdsOpensNothing` | developerbox_spi.c:157-158 | when no entry carries either wanted id, the scan returns NULL and opens no device |
| `Selector.EmptyFilterNeedsReadableSerial` | developerbox_spi.c:170-183 | an empty, non-NULL filter accepts an entry exactly when its serial can be read |
| `Selector.TwoBoardsSerialFilter` | developerbox_spi.c:170-187 | with two matching boards whose serials are "ABC123" and "ABC999", the filter "ABC1" opens only the first board; the filter "ABC9" opens and closes the first board and then takes the second |
| `Developerbox.Programmer.constructor` | developerbox_spi.c:68-69 | both globals start as NULL, and no call has been made |
| `Developerbox.Programmer.GpioGet` | developerbox_spi.c:71-85 | issues one latch read (0xC0, 0xFF, 0x00C2, 0, length 1) on the handle and returns the byte read, or 0 when the transfer fails |
| `Developerbox.Programmer.GpioSet` | developerbox_spi.c:87-100 | issues exactly one latch write carrying the packed word; the transfer's result is not modelled |
| `Developerbox.Programmer.SetCs` | developerbox_spi.c:102-105 | issues exactly one transfer, the latch write of `SetCsWrite(level)` |
| `Developerbox.Programmer.SetSck` | developerbox_spi.c:107-110 | issues exactly one transfer, the latch write of `SetSckWrite(level)` |
| `Developerbox.Programmer.SetMosi` | developerbox_spi.c:112-115 | issues exactly one transfer, the latch write of `SetMosiWrite(level)` |
| `Developerbox.Programmer.GetMisoLevel` | developerbox_spi.c:117-120 | issues exactly one latch read and returns `GetMiso` of its outcome |
| `Developerbox.Programmer.SetSckSetMosi` | developerbox_spi.c:121-125 | issues exactly one transfer (not two), the latch write of `SetSckSetMosiWrite(sck, mosi)` |
| `Developerbox.Programmer.Init` | developerbox_spi.c:202-235 | sets `usb_ctx` to the created context and `cp210x_handle` to the scan's result; makes exactly the calls of `InitCalls` and returns `InitStatus` |
| `Developerbox.Programmer.Shutdown` | developerbox_spi.c:194-200 | closes the handle, then exits the context, and returns 0 |
| `Developerbox.InitWithoutContext` | developerbox_spi.c:208-213 | without a context, init returns 1 and does not run the scan |
| `Developerbox.InitWithoutDevice` | developerbox_spi.c:217-223 | when no device is found, init exits the context as its last call and returns 1, with no registration |
| `Developerbox.InitSuccess` | developerbox_spi.c:225-234 | init returns 0 exactly when a context exists, a device is found and both registrations succeed; it then registers the shutdown hook once, then the bit-bang master once, and tears nothing down |
| `Developerbox.RegistrationFailureKeepsResources` | developerbox_spi.c:225-232 | a registration failure returns 1 without exiting the context and with the chosen handle still open |
| `Developerbox.InitThenShutdownNestsHandle` | developerbox_spi.c:194-200 | once init has registered the shutdown hook, init followed by shutdown nests the board's handle inside the context. `libusb_init` comes first. The chosen entry is opened during the scan and never closed there. Shutdown closes that entry's handle. The context is exited only once, as the last call |
| `Developerbox.ScanMakesNoLifecycleCalls` | developerbox_spi.c:136-192 | the scan never exits the context and never registers anything |
| `Developerbox.SingleBoardInit` | developerbox_spi.c:202-235 | with one Developerbox and no filter, init returns 0 and registers both the hook and the master; with an empty bus, init returns 1 after freeing the list and exiting the context |

## Left out

- The libusb calls are not modelled beyond their outcomes. This covers control transfer, device list,
  descriptor, open, string descriptor, init and exit. Their outcomes are parameters: the candidate
  records, `DeviceList`, `ReadOutcome`, and the context `libusb_init` leaves in `usb_ctx`. The return
  code of `libusb_init` is ignored by the driver, and the model ignores it too.
- How the CP2102N applies a masked write is not stated by the driver. `Latch.ApplyLatchWrite` is an
  explicit assumption: the new latch takes the value bit where the mask bit is set and keeps the old bit
  elsewhere. Only the lemmas that name it depend on it.
- A latch read that completes with 0 bytes returns whatever the uninitialised local `gpio` holds. The
  model carries that byte in `ReadOutcome.gpio` and leaves it unconstrained.
- Logging (`msg_perr`, `msg_pdbg`, `msg_pinfo`) and the bus-number/address debug print are left out.
  They produce output only.
- `Developerbox.Programmer.GpioSet` does not model the transfer's result, because the driver only logs a
  failure and changes nothing else.
- `extract_programmer_param` and the `free(serialno)` calls are left out. The filter is a parameter of
  `Init`.
- The external bit-bang SPI engine, and the tables behind `register_shutdown` and
  `register_spi_bitbang_master`, are not part of this model. Only the two status codes are modelled.
- The transfer timeout of 0 and blocking behaviour are transport timing and are left out.
- Calling shutdown twice has no defined behaviour in the driver. `Shutdown` would simply record its two
  calls again.
- `Developerbox.Programmer.GpioGet` returns the latch byte as `bv8`, where the C function returns it
  widened to `int`. The value is the same.
- The setters shift a C `int`. Shifting a negative or overflowing `int` is undefined in ISO C. The model
  takes the two's-complement result; only its low nibble reaches the device.

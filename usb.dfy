/**
  The libusb surface the driver uses, kept abstract: handles and contexts
  are opaque identities, and every call the driver makes that acquires,
  releases or registers something is recorded as an event.
*/
module Usb {

  import opened Latch

  /** An open `libusb_device_handle`. */
  type Handle = nat

  /** A `libusb_context`. */
  type Context = nat

  /** A call made by the driver to libusb or to the programmer registry. */
  datatype Call =
    | LibusbInit
    | GetDeviceList                        // libusb_get_device_list
    | FreeDeviceList                       // libusb_free_device_list
    | OpenDevice(index: nat)               // libusb_open succeeded on list[index]
    | CloseDevice(index: nat)              // libusb_close of the handle opened on list[index]
    | CloseHandle(handle: Handle)          // libusb_close(cp210x_handle)
    | LibusbExit                           // libusb_exit(usb_ctx)
    | RegisterShutdown                     // register_shutdown(developerbox_spi_shutdown, NULL)
    | RegisterBitbangMaster                // register_spi_bitbang_master(&bitbang_spi_master_cp210x)
    | ControlTransfer(on: Handle, request: ControlRequest)
}

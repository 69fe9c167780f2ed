/** What the functions of the host stack report. */
module UsbStatus {
  datatype Status = USBH_OK | USBH_BUSY | USBH_FAIL | USBH_NOT_SUPPORTED
}

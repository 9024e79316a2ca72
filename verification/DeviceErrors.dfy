/** The structured errors that the device, job and encoder layers exchange. */
module DeviceErrors {

  datatype Category =
    | NoError | InvalidState | UnsupportedDevice | AccessDenied | Protocol | Disconnected | Timeout
    | TransferIncomplete | FirmwareMissing | FirmwareTransferFailed | FirmwareUnverified
    | RasterInvalid | Cancelled | EncodingFailed
    | MediaRequired | ManualFeedRequired | CoverIsOpen | DeviceFault

  datatype Retry = SafeAutomatic | Explicit | Never

  datatype Action =
    | NoAction | ImportFirmware | ReconnectAndRetryFirmware | PowerCyclePrinter | ReconnectPrinter
    | RetryJob | CorrectRaster | LoadMedia | LoadManualFeed | CloseCover | ClearDeviceFault

  datatype Error = Error(category: Category, retry: Retry, action: Action)

  const NONE := Error(NoError, SafeAutomatic, NoAction)
  const INVALID_STATE := Error(InvalidState, Never, NoAction)
}

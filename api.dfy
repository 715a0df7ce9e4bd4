/**
 * The transfer record shared between the engine and the host application
 * (`TransferStatus` and `FileTransfer` of the public API).
 */
module Api {

  datatype TransferStatus = Pending | Connecting | Transferring | Completed | Failed

  /** One file's movement, as polled by the host application. */
  datatype FileTransfer = FileTransfer(
    id: string,
    fileName: string,
    fileSize: nat,
    transferredBytes: nat,
    status: TransferStatus)
}

/** Shared vocabulary of the sync engine: optional values, exceptions, the
    business Result, the message enums and the inbound message records. */
module Domain {

  datatype Option<+T> = None | Some(value: T)
  {
    function GetOr(default: T): T
    {
      match this
      case Some(v) => v
      case None => default
    }
  }

  /** An exception in flight; only its Message is observable by the engine. */
  datatype Exn = Exn(message: string)

  /** The outcome of a call that may throw: it returns a value or raises an exception. */
  datatype Try<+T> = Return(value: T) | Throw(exn: Exn)

  /** Result<Unit> of the shared domain library: success, or a business failure with its error text. */
  datatype Result = Success | Failure(error: string)
  {
    predicate IsSuccess() { Success? }
  }

  /** ConfigSyncMessageType. A C# enum field can hold any integer, so a value outside
      the two named members is kept as `Unrecognised(raw)`. */
  datatype ConfigSyncMessageType = Value | KeyVaultReference | Unrecognised(raw: int)

  /** SyncAction, with an out-of-range value kept as `UnrecognisedAction(raw)` in the
      same way. */
  datatype SyncAction = Upsert | Delete | UnrecognisedAction(raw: int)

  /** The payload handled by ConfigSyncHandler. `value` is the optional plain value
      the handler reads for Value messages. */
  datatype ConfigSyncMessage = ConfigSyncMessage(
    key: string,
    messageType: ConfigSyncMessageType,
    keyVaultSecretUri: Option<string>,
    syncAction: SyncAction,
    value: Option<string>)

  /** The payload handled by AppConfigurationSyncService. */
  datatype AppConfigMessage = AppConfigMessage(
    configKeyId: string,
    configKeyName: string,
    messageType: ConfigSyncMessageType,
    syncAction: SyncAction)
}

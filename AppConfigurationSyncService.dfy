/** AppConfigurationSyncService: the older handler for Value messages. It copies a
    key from the hub App Configuration store into the local one (update when the
    key exists locally, create with the hub's content type otherwise), or removes
    the local key. Unlike ConfigSyncHandler it lets every exception propagate, so
    that the message is redelivered, and only reports business outcomes as a Result.

    The pure functions give the effect of one call on the local store; the class
    AppConfigurationSyncService runs the same steps against store objects. */
module AppConfigurationSyncService {
  import opened Domain
  import opened Text
  import opened AppConfiguration

  function HubKeyNotFoundMessage(key: string): string
  {
    "Hub key " + key + " not found."
  }

  function UnsupportedCombinationMessage(t: ConfigSyncMessageType, a: SyncAction): string
  {
    "Unsupported combination " + TypeName(t) + " / " + ActionName(a)
  }

  /** The end of a handler: an exception from the last store call propagates,
      otherwise the handler reports Success. */
  function Done<T>(call: Try<T>, local: ConfigState): (r: (Try<Result>, ConfigState))
    ensures r.1 == local
    ensures call.Throw? ==> r.0 == Throw(call.exn)
    ensures call.Return? ==> r.0 == Return(Success)
  {
    match call
    case Throw(e) => (Throw(e), local)
    case Return(_) => (Return(Success), local)
  }

  /** HandleValueUpsertAsync. */
  function ValueUpsert(key: string, hub: ConfigState, local: ConfigState): (r: (Try<Result>, ConfigState))
    ensures r.0.Return? && r.0.value.Failure? ==>
              key !in hub.settings && r == (Return(Failure(HubKeyNotFoundMessage(key))), local)
    ensures r.0 == Return(Success) ==>
              key in hub.settings && key in r.1.settings && r.1.settings[key].value == hub.settings[key].value
    ensures r.0.Throw? ==> r.1 == local
    ensures r.1.SameExcept(local, key)
  {
    var hubSetting := hub.Fetch(key);
    match hubSetting
    case Throw(e) => (Throw(e), local)
    case Return(None) => (Return(Failure(HubKeyNotFoundMessage(key))), local)
    case Return(Some(setting)) =>
      var contentType := setting.contentType.GetOr(PlainText);
      var localExists := local.Get(key);
      match localExists
      case Throw(e) => (Throw(e), local)
      case Return(true) =>
        var updated := local.Set(key, setting.value);
        Done(updated.0, updated.1)
      case Return(false) =>
        var created := local.Add(key, setting.value, contentType);
        if created.0 == Return(false) then
          // the key appeared between the existence check and the create
          var updated := created.1.Set(key, setting.value);
          Done(updated.0, updated.1)
        else
          Done(created.0, created.1)
  }

  /** HandleValueDeleteAsync: deleting an absent key is a success. */
  function ValueDelete(key: string, local: ConfigState): (r: (Try<Result>, ConfigState))
    ensures r.0.Throw? <==> ReadSetting in local.failing || (key in local.settings && RemoveSetting in local.failing)
    ensures r.0.Return? ==> r.0.value == Success && key !in r.1.settings
    ensures r.0.Throw? ==> r.1 == local
    ensures r.1.SameExcept(local, key)
  {
    match local.Get(key)
    case Throw(e) => (Throw(e), local)
    case Return(false) => (Return(Success), local)
    case Return(true) =>
      var deleted := local.Delete(key);
      Done(deleted.0, deleted.1)
  }

  /** SyncAppConfigurationAsync: only (Value, Upsert) and (Value, Delete) are handled. */
  function Sync(message: AppConfigMessage, hub: ConfigState, local: ConfigState): (r: (Try<Result>, ConfigState))
    ensures message.messageType != Value || message.syncAction.UnrecognisedAction? ==>
              r == (Return(Failure(UnsupportedCombinationMessage(message.messageType, message.syncAction))), local)
  {
    if message.messageType == Value && message.syncAction == Upsert then
      ValueUpsert(message.configKeyName, hub, local)
    else if message.messageType == Value && message.syncAction == Delete then
      ValueDelete(message.configKeyName, local)
    else
      (Return(Failure(UnsupportedCombinationMessage(message.messageType, message.syncAction))), local)
  }

  // ---------------------------------------------------------------------
  // Properties
  // ---------------------------------------------------------------------

  /** Every message type other than Value is an unsupported combination, reported as
      a failure naming the type and the action, and the store is not touched. */
  lemma UnsupportedCombination(message: AppConfigMessage, hub: ConfigState, local: ConfigState)
    requires message.messageType != Value
    ensures Sync(message, hub, local).1 == local
    ensures Sync(message, hub, local).0 == Return(Failure(
              "Unsupported combination " + TypeName(message.messageType) + " / " + ActionName(message.syncAction)))
  {
  }

  /** Every combination other than (Value, Upsert) and (Value, Delete), an action
      value outside the enum included, is unsupported and leaves the store untouched. */
  lemma UnsupportedAction(message: AppConfigMessage, hub: ConfigState, local: ConfigState)
    requires message.messageType == Value && message.syncAction.UnrecognisedAction?
    ensures Sync(message, hub, local) == (Return(Failure(
              "Unsupported combination Value / " + IntToString(message.syncAction.raw))), local)
  {
    var digits := IntToString(message.syncAction.raw);
    calc {
      UnsupportedCombinationMessage(message.messageType, message.syncAction);
      "Unsupported combination " + "Value" + " / " + digits;
      { assert "Unsupported combination " + "Value" + " / " == "Unsupported combination Value / "; }
      "Unsupported combination Value / " + digits;
    }
  }

  /** Exceptions are never turned into a Result: a rejected read of either store, or
      a rejected write of the local one (the Set of the update path, the Add of the
      create path, the removal of the delete path), comes back as that exception with
      the local store unchanged. */
  lemma ExceptionsPropagate(message: AppConfigMessage, hub: ConfigState, local: ConfigState)
    requires message.messageType == Value
    ensures message.syncAction == Upsert && ReadSetting in hub.failing ==>
              Sync(message, hub, local) == (Throw(Exn(hub.failing[ReadSetting])), local)
    ensures ReadSetting in local.failing
            && (message.syncAction == Delete
                || (message.syncAction == Upsert && ReadSetting !in hub.failing && message.configKeyName in hub.settings)) ==>
              Sync(message, hub, local) == (Throw(Exn(local.failing[ReadSetting])), local)
    ensures message.syncAction == Delete && ReadSetting !in local.failing && RemoveSetting in local.failing
            && message.configKeyName in local.settings ==>
              Sync(message, hub, local) == (Throw(Exn(local.failing[RemoveSetting])), local)
    ensures message.syncAction == Upsert && ReadSetting !in hub.failing && message.configKeyName in hub.settings
            && ReadSetting !in local.failing && message.configKeyName in local.settings && WriteSetting in local.failing ==>
              Sync(message, hub, local) == (Throw(Exn(local.failing[WriteSetting])), local)
    ensures message.syncAction == Upsert && ReadSetting !in hub.failing && message.configKeyName in hub.settings
            && ReadSetting !in local.failing && message.configKeyName !in local.settings && AddSetting in local.failing ==>
              Sync(message, hub, local) == (Throw(Exn(local.failing[AddSetting])), local)
  {
  }

  /** The only business failure of a handled Value message is a key missing from the
      hub: every other outcome is Success or an exception raised by one of the stores. */
  lemma ValueOutcomes(message: AppConfigMessage, hub: ConfigState, local: ConfigState)
    requires message.messageType == Value && !message.syncAction.UnrecognisedAction?
    ensures var r := Sync(message, hub, local).0;
            r.Return? && r.value.Failure? ==>
              message.syncAction == Upsert && r.value.error == HubKeyNotFoundMessage(message.configKeyName)
    ensures var r := Sync(message, hub, local).0;
            r.Throw? ==>
              (exists c :: c in local.failing && r.exn == Exn(local.failing[c]))
              || (exists c :: c in hub.failing && r.exn == Exn(hub.failing[c]))
    ensures Sync(message, hub, local).0.Throw? ==> Sync(message, hub, local).1 == local
  {
  }

  /** A key missing from the hub is a failure and nothing is written locally. */
  lemma HubKeyMissing(message: AppConfigMessage, hub: ConfigState, local: ConfigState)
    requires message.messageType == Value && message.syncAction == Upsert
    requires ReadSetting !in hub.failing && message.configKeyName !in hub.settings
    ensures Sync(message, hub, local) == (Return(Failure(HubKeyNotFoundMessage(message.configKeyName))), local)
  {
  }

  /** After a successful Value Upsert the local key holds the hub value. A key created
      here carries the hub's content type, or text/plain when the hub has none; an
      existing key is updated through Set, which drops its content type. No other
      key changes. */
  lemma ValueUpsertMirrorsHub(message: AppConfigMessage, hub: ConfigState, local: ConfigState)
    requires message.messageType == Value && message.syncAction == Upsert
    requires Sync(message, hub, local).0 == Return(Success)
    ensures var key := message.configKeyName;
            var after := Sync(message, hub, local).1;
            && key in hub.settings && key in after.settings
            && after.settings[key].value == hub.settings[key].value
            && (key !in local.settings ==>
                  after.settings[key].contentType == Some(hub.settings[key].contentType.GetOr(PlainText)))
            && (key in local.settings ==> after.settings[key].contentType == None)
            && after.SameExcept(local, key)
  {
  }

  /** Value Upsert is repeatable: a second delivery to a store that accepts updates
      succeeds, leaves the same value under the key and the other keys as they were
      (only the content type of a key created by the first delivery is dropped). */
  lemma ValueUpsertRepeatable(message: AppConfigMessage, hub: ConfigState, local: ConfigState)
    requires message.messageType == Value && message.syncAction == Upsert
    requires Sync(message, hub, local).0 == Return(Success) && WriteSetting !in local.failing
    ensures var once := Sync(message, hub, local).1;
            var twice := Sync(message, hub, once);
            && twice.0 == Return(Success)
            && twice.1.settings.Keys == once.settings.Keys
            && (forall k :: k in once.settings ==> twice.1.settings[k].value == once.settings[k].value)
  {
  }

  /** Value Delete is idempotent: an absent key is a success with no change, a present
      key is removed with success, and a second delivery changes nothing more. */
  lemma ValueDeleteIdempotent(message: AppConfigMessage, hub: ConfigState, local: ConfigState)
    requires message.messageType == Value && message.syncAction == Delete
    requires ReadSetting !in local.failing && RemoveSetting !in local.failing
    ensures var key := message.configKeyName;
            && (key !in local.settings ==> Sync(message, hub, local) == (Return(Success), local))
            && (key in local.settings ==>
                  var after := Sync(message, hub, local).1;
                  Sync(message, hub, local).0 == Return(Success) && key !in after.settings && after.SameExcept(local, key))
    ensures var once := Sync(message, hub, local).1;
            Sync(message, hub, once) == (Return(Success), once)
  {
  }

  // ---------------------------------------------------------------------
  // The service object
  // ---------------------------------------------------------------------

  class AppConfigurationSyncService {
    const appConfigurationClient: AppConfigurationClient
    const hubAppConfigurationClient: AppConfigurationClient

    /** The local and hub clients are instances of two distinct client types. */
    constructor (appConfigurationClient: AppConfigurationClient, hubAppConfigurationClient: AppConfigurationClient)
      requires appConfigurationClient != hubAppConfigurationClient
      ensures this.appConfigurationClient == appConfigurationClient
      ensures this.hubAppConfigurationClient == hubAppConfigurationClient
    {
      this.appConfigurationClient := appConfigurationClient;
      this.hubAppConfigurationClient := hubAppConfigurationClient;
    }

    /** SyncAppConfigurationAsync. Only the local store may change; the hub is read. */
    method SyncAppConfigurationAsync(message: AppConfigMessage) returns (r: Try<Result>)
      requires appConfigurationClient != hubAppConfigurationClient
      modifies appConfigurationClient
      ensures (r, appConfigurationClient.State())
              == Sync(message, hubAppConfigurationClient.State(), old(appConfigurationClient.State()))
    {
      if message.messageType == Value && message.syncAction == Upsert {
        r := HandleValueUpsertAsync(message);
        return;
      }
      if message.messageType == Value && message.syncAction == Delete {
        r := HandleValueDeleteAsync(message);
        return;
      }
      r := Return(Failure(UnsupportedCombinationMessage(message.messageType, message.syncAction)));
    }

    method HandleValueUpsertAsync(message: AppConfigMessage) returns (r: Try<Result>)
      requires appConfigurationClient != hubAppConfigurationClient
      modifies appConfigurationClient
      ensures (r, appConfigurationClient.State())
              == ValueUpsert(message.configKeyName, hubAppConfigurationClient.State(), old(appConfigurationClient.State()))
    {
      var key := message.configKeyName;
      var hubSetting := hubAppConfigurationClient.FetchConfigurationSetting(key);
      match hubSetting {
        case Throw(e) =>
          return Throw(e);
        case Return(None) =>
          return Return(Failure(HubKeyNotFoundMessage(key)));
        case Return(Some(setting)) =>
          var hubContentType := setting.contentType.GetOr(PlainText);
          var localExists := appConfigurationClient.GetConfigurationSetting(key);
          match localExists {
            case Throw(e) =>
              return Throw(e);
            case Return(true) =>
              var updated := appConfigurationClient.SetConfigurationSetting(key, setting.value);
              r := Done(updated, appConfigurationClient.State()).0;
            case Return(false) =>
              var created := appConfigurationClient.AddConfigurationSetting(key, setting.value, hubContentType);
              if created == Return(false) {
                var updated := appConfigurationClient.SetConfigurationSetting(key, setting.value);
                r := Done(updated, appConfigurationClient.State()).0;
              } else {
                r := Done(created, appConfigurationClient.State()).0;
              }
          }
      }
    }

    method HandleValueDeleteAsync(message: AppConfigMessage) returns (r: Try<Result>)
      modifies appConfigurationClient
      ensures (r, appConfigurationClient.State()) == ValueDelete(message.configKeyName, old(appConfigurationClient.State()))
    {
      var localExists := appConfigurationClient.GetConfigurationSetting(message.configKeyName);
      match localExists {
        case Throw(e) =>
          return Throw(e);
        case Return(false) =>
          return Return(Success);
        case Return(true) =>
          var deleted := appConfigurationClient.DeleteConfigurationSetting(message.configKeyName);
          r := Done(deleted, appConfigurationClient.State()).0;
      }
    }
  }
}

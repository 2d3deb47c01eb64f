# Configuration sync engine — a Dafny model

The Sync Orchestrator of the enterprise configuration-management platform keeps a
spoke environment's **local** stores in line with the **hub**. The local stores are
an Azure App Configuration store and an Azure Key Vault. Each change in the hub
arrives as a sync message. A handler applies the change to the local stores, reading
the hub and never writing it. The outcome is then published as a result record on
a Service Bus topic.

This project models that reconciliation engine and proves what each handler does to
the local stores:

- **Store clients.** `AppConfiguration` models the App Configuration client as a key → setting
  table, and `KeyVault` models the Key Vault client as a name → secret table. Each store
  has three layers:
  - a state datatype whose member functions give the effect of each call;
  - a class whose fields hold that state, with methods proved equal to those functions;
  - lemmas relating the calls (create-only Add, upsert Set, Key Vault soft delete,
    "not found" read as `false`/`None`).
- **Store faults.** A fault is a map from call kind to the exception message the
  store raises for it. A rejected call throws and changes nothing, so partial failures
  are part of the model.
- **`ConfigSyncHandler`** handles `ConfigSyncMessage`s of type Value or
  KeyVaultReference. It catches every exception and reports it as a failed `Result`.
  The function `Handle` gives its effect on the local vault and the local
  configuration store. The class method `HandleAsync` is proved to have exactly that
  effect, with the hub vault outside its `modifies` clause. The lemmas cover:
  - every branch;
  - redelivery: idempotence of KeyVaultReference Upsert, recovery after a failed
    attempt, and non-idempotence of both deletes;
  - the lack of rollback;
  - secret-name extraction from the secret URI.
- **`AppConfigurationSyncService`** is the older Value-only handler. It copies a hub
  setting into the local store, and it rethrows exceptions.
- **`SyncResultOrchestrator`** builds the correlated `ResultMessage` (status, error
  text, trace identity) and publishes it once.
- **`ResultTopicPublisher`** turns the record into a Service Bus message whose
  application properties repeat the filterable fields.
- **Support modules.** `Domain` holds the shared messages and the `Result`/`Try` types.
  `Text` holds the .NET string operations the engine uses (blank tests,
  OrdinalIgnoreCase comparison, `Split` with empty entries removed). `Uris` holds a
  model of `new Uri(...)`.

Exceptions are values of `Try<T>`: `Return(value)` or `Throw(Exn(message))`.
`Activity.Current` becomes an explicit optional trace parameter, and the UTC clock an
integer parameter.

## Model

| member | source | states |
|---|---|---|
| AppConfiguration.ReferencedUriOfValue | src/Shared/ConfigManagement.Shared.AppConfiguration/AppConfigurationClient.cs:306-320 | decoding the stored reference value `{"uri":"<u>"}` gives back exactly `u` |
| AppConfiguration.KeyVaultReferenceValueInjective | src/Shared/ConfigManagement.Shared.AppConfiguration/AppConfigurationClient.cs:306-320 | two reference values are equal iff they reference the same URI |
| AppConfiguration.CreateKeyVaultReferenceSetting | src/Shared/ConfigManagement.Shared.AppConfiguration/AppConfigurationClient.cs:306-320 | a null secret URI throws ArgumentNullException; otherwise the setting carries the given content type and a value that decodes to the URI's text |
| AppConfiguration.ConfigState.Get | src/Shared/ConfigManagement.Shared.AppConfiguration/AppConfigurationClient.cs:42-82 | the call throws iff reads are rejected; otherwise it returns true iff the key is stored (404 reads as false) |
| AppConfiguration.ConfigState.Fetch | src/Sync.Orchestrator/ConfigManagement.Sync.Orchestrator.Application/Services/AppConfigurationSyncService.cs:108-122 | the hub read: throws iff reads are rejected; otherwise returns the stored setting, or None iff the key is absent |
| AppConfiguration.ConfigState.Add | src/Shared/ConfigManagement.Shared.AppConfiguration/AppConfigurationClient.cs:88-145 | create-only: true iff the key was absent, in which case it now holds the value with the given content type; false (412) leaves the store unchanged; a rejected call throws with no change; no other key changes |
| AppConfiguration.ConfigState.AddKeyVaultReference | src/Shared/ConfigManagement.Shared.AppConfiguration/AppConfigurationClient.cs:151-210 | a null URI throws before the store is reached; otherwise the same create-only behaviour, storing the encoded reference with the given content type |
| AppConfiguration.ConfigState.Set | src/Shared/ConfigManagement.Shared.AppConfiguration/AppConfigurationClient.cs:216-256 | upsert: afterwards the key holds the value (with no content type) whether or not it existed; a rejected call throws with no change; no other key changes |
| AppConfiguration.ConfigState.Delete | src/Shared/ConfigManagement.Shared.AppConfiguration/AppConfigurationClient.cs:262-300 | afterwards the key is absent, an absent key being no error; a rejected call throws; no other key changes |
| AppConfiguration.SetIdempotent | src/Shared/ConfigManagement.Shared.AppConfiguration/AppConfigurationClient.cs:216-256 | setting the same value twice leaves the state of one Set |
| AppConfiguration.AddTwiceReportsExisting | src/Shared/ConfigManagement.Shared.AppConfiguration/AppConfigurationClient.cs:104-132 | a second Add of a key just added returns false and changes nothing |
| AppConfiguration.AppConfigurationClient.constructor | src/Shared/ConfigManagement.Shared.AppConfiguration/AppConfigurationClient.cs:23-36 | the client is bound to the endpoint and to the store's current contents |
| AppConfiguration.AppConfigurationClient.Connect | src/Shared/ConfigManagement.Shared.AppConfiguration/AppConfigurationClient.cs:23-36 | a blank endpoint is rejected with "Endpoint is required."; an endpoint that is not an absolute URI is rejected by `new Uri`; the URI is built before the credential is asked for, so a missing credential factory then fails with the null-reference error; with an absolute URI and a factory, a fresh client on the store, with the given contents |
| AppConfiguration.AppConfigurationClient.GetConfigurationSetting | src/Shared/ConfigManagement.Shared.AppConfiguration/AppConfigurationClient.cs:42-82 | returns what `ConfigState.Get` says of the current store, changing nothing |
| AppConfiguration.AppConfigurationClient.FetchConfigurationSetting | src/Sync.Orchestrator/ConfigManagement.Sync.Orchestrator.Application/Services/AppConfigurationSyncService.cs:108-122 | returns what `ConfigState.Fetch` says of the current store, changing nothing |
| AppConfiguration.AppConfigurationClient.AddConfigurationSetting | src/Shared/ConfigManagement.Shared.AppConfiguration/AppConfigurationClient.cs:88-145 | result and new store are those of `ConfigState.Add` on the old store |
| AppConfiguration.AppConfigurationClient.AddKeyVaultReferenceConfigurationSetting | src/Shared/ConfigManagement.Shared.AppConfiguration/AppConfigurationClient.cs:151-210 | result and new store are those of `ConfigState.AddKeyVaultReference` on the old store |
| AppConfiguration.AppConfigurationClient.SetConfigurationSetting | src/Shared/ConfigManagement.Shared.AppConfiguration/AppConfigurationClient.cs:216-256 | result and new store are those of `ConfigState.Set` on the old store |
| AppConfiguration.AppConfigurationClient.DeleteConfigurationSetting | src/Shared/ConfigManagement.Shared.AppConfiguration/AppConfigurationClient.cs:262-300 | result and new store are those of `ConfigState.Delete` on the old store |
| KeyVault.VaultState.GetSecretValue | src/Shared/ConfigManagement.Shared.KeyVault/KeyVaultSecretClient.cs:65-102 | throws iff reads are rejected; otherwise None iff the secret is not live (404), else (Id, Name, Value) of the stored secret |
| KeyVault.VaultState.SecretExists | src/Shared/ConfigManagement.Shared.KeyVault/KeyVaultSecretClient.cs:40-63 | true iff the read returns a secret, false iff it returns none; a read failure propagates |
| KeyVault.VaultState.CreateSecret | src/Shared/ConfigManagement.Shared.KeyVault/KeyVaultSecretClient.cs:104-144 | writes through the Set call: true with the value stored; false (409) iff the name is soft-deleted, with no change; a rejected write throws; only that name changes and soft-delete consistency is kept |
| KeyVault.VaultState.SetSecret | src/Shared/ConfigManagement.Shared.KeyVault/KeyVaultSecretClient.cs:146-179 | afterwards the secret holds the value; a soft-deleted name throws the 409 conflict; a rejected write throws; only that name changes |
| KeyVault.VaultState.DeleteSecret | src/Shared/ConfigManagement.Shared.KeyVault/KeyVaultSecretClient.cs:181-213 | the named secret is soft-deleted (no longer live, name reserved); a missing secret throws 404; only that name changes |
| KeyVault.CreateIsSet | src/Shared/ConfigManagement.Shared.KeyVault/KeyVaultSecretClient.cs:117-127 | a successful Create has the same effect as Set |
| KeyVault.SetThenGet | src/Shared/ConfigManagement.Shared.KeyVault/KeyVaultSecretClient.cs:159-168 | after a successful Set, the secret exists and reads back the new value |
| KeyVault.DeleteThenCreateConflicts | src/Shared/ConfigManagement.Shared.KeyVault/KeyVaultSecretClient.cs:128-132 | after a Delete, creating the same name reports the conflict (false) and changes nothing |
| KeyVault.KeyVaultSecretClient.constructor | src/Shared/ConfigManagement.Shared.KeyVault/KeyVaultSecretClient.cs:22-38 | the client is bound to the vault and its current contents |
| KeyVault.KeyVaultSecretClient.Connect | src/Shared/ConfigManagement.Shared.KeyVault/KeyVaultSecretClient.cs:22-38 | a blank endpoint is rejected with "VaultUri is required.", then a missing credential factory, then a non-absolute URI; otherwise a fresh client on the vault |
| KeyVault.KeyVaultSecretClient.SecretExists | src/Shared/ConfigManagement.Shared.KeyVault/KeyVaultSecretClient.cs:40-63 | returns what `VaultState.SecretExists` says of the current vault, changing nothing |
| KeyVault.KeyVaultSecretClient.GetSecretValue | src/Shared/ConfigManagement.Shared.KeyVault/KeyVaultSecretClient.cs:65-102 | returns what `VaultState.GetSecretValue` says of the current vault, changing nothing |
| KeyVault.KeyVaultSecretClient.CreateSecret | src/Shared/ConfigManagement.Shared.KeyVault/KeyVaultSecretClient.cs:104-144 | result and new vault are those of `VaultState.CreateSecret` on the old vault |
| KeyVault.KeyVaultSecretClient.SetSecret | src/Shared/ConfigManagement.Shared.KeyVault/KeyVaultSecretClient.cs:146-179 | result and new vault are those of `VaultState.SetSecret` on the old vault |
| KeyVault.KeyVaultSecretClient.DeleteSecret | src/Shared/ConfigManagement.Shared.KeyVault/KeyVaultSecretClient.cs:181-213 | result and new vault are those of `VaultState.DeleteSecret` on the old vault |
| Uris.ParseUri | src/Sync.Orchestrator/ConfigManagement.Sync.Orchestrator.Application/Handlers/ConfigSyncHandler.cs:156 | `new Uri(text)`: an accepted string keeps its text and has a scheme, a non-empty authority and a path starting with '/' and free of query and fragment; any string outside the modelled grammar throws UriFormatException |
| Uris.ParseComposedUri | src/Sync.Orchestrator/ConfigManagement.Sync.Orchestrator.Application/Handlers/ConfigSyncHandler.cs:156 | a string composed of scheme, "://", authority and an absolute path parses back into exactly those parts |
| Text.SplitJoinPath | src/Sync.Orchestrator/ConfigManagement.Sync.Orchestrator.Application/Handlers/ConfigSyncHandler.cs:254-255 | splitting "/s1/s2/…" on '/' with empty entries removed gives back the non-empty segments s1, s2, … |
| Text.Split | src/Sync.Orchestrator/ConfigManagement.Sync.Orchestrator.Application/Handlers/ConfigSyncHandler.cs:254-255 | every part of the split is non-empty and free of the separator (empty entries removed) |
| Text.NullOrWhiteSpaceCases | src/Sync.Orchestrator/ConfigManagement.Sync.Orchestrator.Application/Handlers/ConfigSyncHandler.cs:147 | `string.IsNullOrWhiteSpace` holds for null, for "" and for white space only; one non-white-space character makes it false |
| ConfigSyncHandler.GetSecretNameFromUri | src/Sync.Orchestrator/ConfigManagement.Sync.Orchestrator.Application/Handlers/ConfigSyncHandler.cs:252-265 | returns a value iff the path has at least two non-empty segments and the first is "secrets" ignoring case; the value is the second segment, non-empty and slash-free; otherwise InvalidOperationException naming the URI |
| ConfigSyncHandler.ParseSecretReference | src/Sync.Orchestrator/ConfigManagement.Sync.Orchestrator.Application/Handlers/ConfigSyncHandler.cs:156-157 | an accepted secret URI keeps its text and yields a non-empty secret name |
| ConfigSyncHandler.SecretReferenceOfComposedUri | src/Sync.Orchestrator/ConfigManagement.Sync.Orchestrator.Application/Handlers/ConfigSyncHandler.cs:156-157 | for any URI scheme://vault/s1/…/sn: the reference names s2 when n >= 2 and s1 is "secrets" in any case, otherwise the invalid-URI error naming the whole URI |
| ConfigSyncHandler.SecretNameOfSegments | src/Sync.Orchestrator/ConfigManagement.Sync.Orchestrator.Application/Handlers/ConfigSyncHandler.cs:252-265 | the secret name of a path joined from segments is the second segment under the same condition, otherwise the error |
| ConfigSyncHandler.SecretNameExample | src/Sync.Orchestrator/ConfigManagement.Sync.Orchestrator.Application/Handlers/ConfigSyncHandler.cs:252-265 | path /secrets/foo/abcd1234 designates the secret foo |
| ConfigSyncHandler.SecretNameIgnoresCase | src/Sync.Orchestrator/ConfigManagement.Sync.Orchestrator.Application/Handlers/ConfigSyncHandler.cs:252-265 | path /SECRETS/foo designates the secret foo |
| ConfigSyncHandler.SecretNameRejectsOtherCollection | src/Sync.Orchestrator/ConfigManagement.Sync.Orchestrator.Application/Handlers/ConfigSyncHandler.cs:252-265 | path /keys/foo is rejected |
| ConfigSyncHandler.SecretNameRejectsMissingName | src/Sync.Orchestrator/ConfigManagement.Sync.Orchestrator.Application/Handlers/ConfigSyncHandler.cs:252-265 | path /secrets/ is rejected (one segment only) |
| ConfigSyncHandler.HandleValue | src/Sync.Orchestrator/ConfigManagement.Sync.Orchestrator.Application/Handlers/ConfigSyncHandler.cs:72-122 | Value handling never touches the local vault |
| ConfigSyncHandler.MirrorSecret | src/Sync.Orchestrator/ConfigManagement.Sync.Orchestrator.Application/Handlers/ConfigSyncHandler.cs:184-207 | the local write fails exactly when the read or the write call is rejected, or the name is live and soft-deleted at once; on success a name that is not soft-deleted holds the hub value, while a soft-deleted, absent name is silently left unwritten (the create's false is ignored); only that name changes and validity is kept |
| ConfigSyncHandler.UpsertReference | src/Sync.Orchestrator/ConfigManagement.Sync.Orchestrator.Application/Handlers/ConfigSyncHandler.cs:168-222 | a Failure only for a missing or null hub secret, with no change; on success the local secret equals the hub's, and a key that was absent holds the encoded reference with the Key Vault content type; an existing key is never rewritten; only the secret name and the key change |
| ConfigSyncHandler.DeleteReference | src/Sync.Orchestrator/ConfigManagement.Sync.Orchestrator.Application/Handlers/ConfigSyncHandler.cs:224-245 | an absent key is a Failure with no change; on success the secret is soft-deleted and the key removed; the store changes only on full success; only the secret name and the key change |
| ConfigSyncHandler.HandleKeyVaultReference | src/Sync.Orchestrator/ConfigManagement.Sync.Orchestrator.Application/Handlers/ConfigSyncHandler.cs:143-246 | a blank URI is a Failure and a malformed one the parse exception, both with no change; any change touches only the referenced secret and the message key; a valid local vault stays valid |
| ConfigSyncHandler.Catch | src/Sync.Orchestrator/ConfigManagement.Sync.Orchestrator.Application/Handlers/ConfigSyncHandler.cs:57-65 | an exception becomes Failure(its message), a returned Result passes through, and the stores keep the state the exception left |
| ConfigSyncHandler.Handle | src/Sync.Orchestrator/ConfigManagement.Sync.Orchestrator.Application/Handlers/ConfigSyncHandler.cs:33-66 | an unrecognised type is a Failure naming it, with no store change; a Value message never touches the local vault |
| ConfigSyncHandler.ValueWithoutValueFails | src/Sync.Orchestrator/ConfigManagement.Sync.Orchestrator.Application/Handlers/ConfigSyncHandler.cs:76-83 | a Value message without a value fails with "Value is required for Value sync." and changes nothing |
| ConfigSyncHandler.ValueUpsertOverwrites | src/Sync.Orchestrator/ConfigManagement.Sync.Orchestrator.Application/Handlers/ConfigSyncHandler.cs:85-97 | with writes accepted, Value Upsert succeeds and the key holds exactly the message value whatever was there, no other key changing; a rejected write is a Failure carrying its message, with no change |
| ConfigSyncHandler.ValueDeleteCases | src/Sync.Orchestrator/ConfigManagement.Sync.Orchestrator.Application/Handlers/ConfigSyncHandler.cs:99-121 | an absent key fails with "Key does not exist for delete." and changes nothing; a present key is removed, nothing else changing, with Success |
| ConfigSyncHandler.ValueDeleteNotIdempotent | src/Sync.Orchestrator/ConfigManagement.Sync.Orchestrator.Application/Handlers/ConfigSyncHandler.cs:99-121 | a Value Delete redelivered after it succeeded fails with "Key does not exist for delete." |
| ConfigSyncHandler.UnrecognisedActionRunsDelete | src/Sync.Orchestrator/ConfigManagement.Sync.Orchestrator.Application/Handlers/ConfigSyncHandler.cs:85-121 | only Upsert is tested for, so a message whose action is outside the enum is handled exactly as a Delete, for both message types |
| ConfigSyncHandler.ConfigReadRejectionBecomesFailure | src/Sync.Orchestrator/ConfigManagement.Sync.Orchestrator.Application/Handlers/ConfigSyncHandler.cs:57-65 | a rejected configuration read is reported as Failure(its message) with both local stores unchanged |
| ConfigSyncHandler.MalformedSecretUriFails | src/Sync.Orchestrator/ConfigManagement.Sync.Orchestrator.Application/Handlers/ConfigSyncHandler.cs:156-157 | a secret URI that `new Uri` or the name extraction rejects is a Failure carrying that exception's message, with no change |
| ConfigSyncHandler.KeyVaultReferenceEarlyFailures | src/Sync.Orchestrator/ConfigManagement.Sync.Orchestrator.Application/Handlers/ConfigSyncHandler.cs:147-182 | a blank secret URI, and a hub secret that is missing or has no value, each fail with their message and write nothing |
| ConfigSyncHandler.KeyVaultReferenceUpsertEffect | src/Sync.Orchestrator/ConfigManagement.Sync.Orchestrator.Application/Handlers/ConfigSyncHandler.cs:168-222 | with working local stores the Upsert succeeds; the local secret takes the hub value unless its name is soft-deleted locally (Create's false is ignored); the key is added as a reference to the hub URI only when absent, an existing key untouched; nothing else changes |
| ConfigSyncHandler.KeyVaultReferenceUpsertPartialWrite | src/Sync.Orchestrator/ConfigManagement.Sync.Orchestrator.Application/Handlers/ConfigSyncHandler.cs:184-219 | no rollback: when adding the reference is rejected, the call fails with that message but the local secret stays written |
| ConfigSyncHandler.KeyVaultReferenceUpsertIdempotent | src/Sync.Orchestrator/ConfigManagement.Sync.Orchestrator.Application/Handlers/ConfigSyncHandler.cs:168-222 | a second identical Upsert gives the same result and the same final stores, whatever the first one did |
| ConfigSyncHandler.UpsertReferenceIdempotent | src/Sync.Orchestrator/ConfigManagement.Sync.Orchestrator.Application/Handlers/ConfigSyncHandler.cs:168-222 | the same on the Upsert branch after the key lookup: the second lookup succeeds and the second run repeats the first's effect |
| ConfigSyncHandler.MirrorSecretIdempotent | src/Sync.Orchestrator/ConfigManagement.Sync.Orchestrator.Application/Handlers/ConfigSyncHandler.cs:184-207 | copying the hub value into the local vault twice gives the outcome and state of copying it once |
| ConfigSyncHandler.KeyVaultReferenceUpsertRecovers | src/Sync.Orchestrator/ConfigManagement.Sync.Orchestrator.Application/Handlers/ConfigSyncHandler.cs:168-222 | once the stores accept every call again, a redelivered Upsert has the same outcome as a first delivery to the healed stores: the partial writes of a failed attempt do no harm |
| ConfigSyncHandler.UpsertReferenceRecovers | src/Sync.Orchestrator/ConfigManagement.Sync.Orchestrator.Application/Handlers/ConfigSyncHandler.cs:168-222 | the recovery property on the Upsert branch after the key lookup |
| ConfigSyncHandler.MirrorSecretRecovers | src/Sync.Orchestrator/ConfigManagement.Sync.Orchestrator.Application/Handlers/ConfigSyncHandler.cs:184-207 | copying onto a healed vault gives the same outcome whether or not an earlier, possibly failed, copy ran first |
| ConfigSyncHandler.KeyVaultReferenceDeleteCases | src/Sync.Orchestrator/ConfigManagement.Sync.Orchestrator.Application/Handlers/ConfigSyncHandler.cs:224-245 | an absent key fails and changes nothing; a present key with a live secret soft-deletes the secret then removes the key, with Success; a present key whose secret is gone fails with the vault's 404 and keeps the key |
| ConfigSyncHandler.KeyVaultReferenceDeleteNotIdempotent | src/Sync.Orchestrator/ConfigManagement.Sync.Orchestrator.Application/Handlers/ConfigSyncHandler.cs:224-245 | a KeyVaultReference Delete redelivered after it succeeded fails with "Key does not exist for delete." |
| ConfigSyncHandler.KeyVaultReferenceDeleteStuckAfterPartialFailure | src/Sync.Orchestrator/ConfigManagement.Sync.Orchestrator.Application/Handlers/ConfigSyncHandler.cs:224-245 | if the key removal is rejected after the secret was soft-deleted, the call fails with the key still present, and every redelivery, even to a healed store, fails with the vault's 404 |
| ConfigSyncHandler.ConfigSyncHandler.constructor | src/Sync.Orchestrator/ConfigManagement.Sync.Orchestrator.Application/Handlers/ConfigSyncHandler.cs:21-31 | the handler holds the hub vault, the local vault and the configuration client it is given |
| ConfigSyncHandler.ConfigSyncHandler.HandleAsync | src/Sync.Orchestrator/ConfigManagement.Sync.Orchestrator.Application/Handlers/ConfigSyncHandler.cs:33-66 | never throws; its Result and the new local vault and configuration store are exactly `Handle` of the message on the old stores; the hub vault is not modified |
| ConfigSyncHandler.ConfigSyncHandler.HandleValueAsync | src/Sync.Orchestrator/ConfigManagement.Sync.Orchestrator.Application/Handlers/ConfigSyncHandler.cs:72-122 | its outcome and new stores are exactly `HandleValue` on the old stores |
| ConfigSyncHandler.ConfigSyncHandler.HandleKeyVaultReferenceAsync | src/Sync.Orchestrator/ConfigManagement.Sync.Orchestrator.Application/Handlers/ConfigSyncHandler.cs:143-246 | its outcome and new stores are exactly `HandleKeyVaultReference` on the old stores |
| AppConfigurationSyncService.ValueUpsert | src/Sync.Orchestrator/ConfigManagement.Sync.Orchestrator.Application/Services/AppConfigurationSyncService.cs:92-196 | the only Failure is a key missing from the hub, with no change; on success the local value equals the hub value; an exception leaves the store unchanged; only the key changes |
| AppConfigurationSyncService.ValueDelete | src/Sync.Orchestrator/ConfigManagement.Sync.Orchestrator.Application/Services/AppConfigurationSyncService.cs:202-260 | throws exactly when the read is rejected, or the key is present and the removal rejected; otherwise Success with the key absent; only the key changes |
| AppConfigurationSyncService.Sync | src/Sync.Orchestrator/ConfigManagement.Sync.Orchestrator.Application/Services/AppConfigurationSyncService.cs:40-86 | a message of any type other than Value, or with an action outside the enum, is an unsupported combination, with no store change |
| AppConfigurationSyncService.UnsupportedCombination | src/Sync.Orchestrator/ConfigManagement.Sync.Orchestrator.Application/Services/AppConfigurationSyncService.cs:55-73 | the failure text names the type and the action, and the local store is untouched |
| AppConfigurationSyncService.UnsupportedAction | src/Sync.Orchestrator/ConfigManagement.Sync.Orchestrator.Application/Services/AppConfigurationSyncService.cs:55-73 | a Value message whose action is outside the enum is "Unsupported combination Value / <number>", with no store change |
| AppConfigurationSyncService.ExceptionsPropagate | src/Sync.Orchestrator/ConfigManagement.Sync.Orchestrator.Application/Services/AppConfigurationSyncService.cs:75-85 | a rejected hub read, a rejected local read, and a rejected local Set (update path), Add (create path) or delete each come back as that exception with the local store unchanged, never as a Result |
| AppConfigurationSyncService.ValueOutcomes | src/Sync.Orchestrator/ConfigManagement.Sync.Orchestrator.Application/Services/AppConfigurationSyncService.cs:40-86 | for (Value, Upsert) and (Value, Delete), the only Failure is the hub-key-missing one; every exception is one raised by the hub or the local store, and leaves the local store unchanged |
| AppConfigurationSyncService.HubKeyMissing | src/Sync.Orchestrator/ConfigManagement.Sync.Orchestrator.Application/Services/AppConfigurationSyncService.cs:108-123 | a key missing from the hub is Failure "Hub key … not found." with no local write |
| AppConfigurationSyncService.ValueUpsertMirrorsHub | src/Sync.Orchestrator/ConfigManagement.Sync.Orchestrator.Application/Services/AppConfigurationSyncService.cs:124-183 | after a successful Upsert the local key holds the hub value; a key created here carries the hub content type or text/plain; an existing key is updated by Set; no other key changes |
| AppConfigurationSyncService.ValueUpsertRepeatable | src/Sync.Orchestrator/ConfigManagement.Sync.Orchestrator.Application/Services/AppConfigurationSyncService.cs:92-196 | a redelivered Upsert succeeds again, with the same keys and the same values |
| AppConfigurationSyncService.ValueDeleteIdempotent | src/Sync.Orchestrator/ConfigManagement.Sync.Orchestrator.Application/Services/AppConfigurationSyncService.cs:202-260 | an absent key is Success with no change; a present key is removed with Success, nothing else changing; a second delivery is Success with no change |
| AppConfigurationSyncService.AppConfigurationSyncService.constructor | src/Sync.Orchestrator/ConfigManagement.Sync.Orchestrator.Application/Services/AppConfigurationSyncService.cs:26-38 | the service holds the local and hub configuration clients it is given |
| AppConfigurationSyncService.AppConfigurationSyncService.SyncAppConfigurationAsync | src/Sync.Orchestrator/ConfigManagement.Sync.Orchestrator.Application/Services/AppConfigurationSyncService.cs:40-86 | its outcome and new local store are exactly `Sync` on the old store; the hub client is not modified |
| AppConfigurationSyncService.AppConfigurationSyncService.HandleValueUpsertAsync | src/Sync.Orchestrator/ConfigManagement.Sync.Orchestrator.Application/Services/AppConfigurationSyncService.cs:92-196 | its outcome and new local store are exactly `ValueUpsert` on the old store |
| AppConfigurationSyncService.AppConfigurationSyncService.HandleValueDeleteAsync | src/Sync.Orchestrator/ConfigManagement.Sync.Orchestrator.Application/Services/AppConfigurationSyncService.cs:202-260 | its outcome and new local store are exactly `ValueDelete` on the old store |
| ResultTopicPublisher.DescribesResultUnique | src/Shared/ConfigManagement.Shared.ServiceBus/ResultTopicPublisher.cs:44-63 | the envelope and property set a result is published as are uniquely determined by the result |
| ResultTopicPublisher.BuildServiceBusMessage | src/Shared/ConfigManagement.Shared.ServiceBus/ResultTopicPublisher.cs:44-63 | body, correlation id, subject, "application/json", the four fixed properties, and spanId/message properties present exactly when non-blank |
| ResultTopicPublisher.ResultTopicPublisher.constructor | src/Shared/ConfigManagement.Shared.ServiceBus/ResultTopicPublisher.cs:14-30 | a publisher for the topic with nothing sent |
| ResultTopicPublisher.ResultTopicPublisher.Create | src/Shared/ConfigManagement.Shared.ServiceBus/ResultTopicPublisher.cs:14-30 | a blank topic name is rejected, then a missing factory; otherwise a fresh publisher with nothing sent |
| ResultTopicPublisher.ResultTopicPublisher.PublishAsync | src/Shared/ConfigManagement.Shared.ServiceBus/ResultTopicPublisher.cs:32-89 | a null result throws before anything is sent; a send failure is rethrown with nothing sent; otherwise exactly one message describing the result is appended |
| SyncResultOrchestrator.BuildResultMessage | src/Sync.Orchestrator/ConfigManagement.Sync.Orchestrator.Application/Orchestration/SyncResultOrchestrator.cs:38-60 | status SUCCESS iff success, else FAILED; message absent on success, the error on failure; routing fields and payload copied from the source event; service fields from the metadata; trace id from the source if not blank, else ambient, else ""; span id ambient if present, else the source's |
| SyncResultOrchestrator.PublishedOutcome | src/Sync.Orchestrator/ConfigManagement.Sync.Orchestrator.Application/Orchestration/SyncResultOrchestrator.cs:55-56 | the published status property tells success from failure; a message property is present iff the result failed with a non-blank error, and holds that error; correlation id and subject are the source event's |
| SyncResultOrchestrator.PublishedTraceIdentity | src/Sync.Orchestrator/ConfigManagement.Sync.Orchestrator.Application/Orchestration/SyncResultOrchestrator.cs:50-53 | the published traceId property is the source's trace id when not blank, else the ambient one; an ambient span with text always yields a spanId property |
| SyncResultOrchestrator.SyncResultOrchestrator.constructor | src/Sync.Orchestrator/ConfigManagement.Sync.Orchestrator.Application/Orchestration/SyncResultOrchestrator.cs:21-30 | holds the publisher and the service metadata it is given |
| SyncResultOrchestrator.SyncResultOrchestrator.HandleResultAsync | src/Sync.Orchestrator/ConfigManagement.Sync.Orchestrator.Application/Orchestration/SyncResultOrchestrator.cs:32-72 | publishes exactly one message describing `BuildResultMessage` of its inputs; a publish failure propagates with nothing sent |

## Left out

- Async/await, cancellation tokens and concurrent deliveries. Each call runs to completion on its own, so in `AppConfigurationSyncService.ValueUpsert` the fallback from Add ("already exists") to Set is modelled but cannot be reached: nothing can create the key between the existence check and the Add.
- Logging, OpenTelemetry activities and tags. They record diagnostics and change no store, with one exception noted next.
- ConfigState.AddKeyVaultReference: a null secret URI is stated to throw the ArgumentNullException of `CreateKeyVaultReferenceSetting`. When an activity is being recorded, the client tags it with `secretUri.ToString()` before that check (AppConfigurationClient.cs line 166), so a null URI throws NullReferenceException with its own message instead. Activity sampling is not modelled. The engine's only caller, `ConfigSyncHandler`, always passes a parsed, non-null URI.
- The Azure SDK itself:
  - Each store is a map.
  - HTTP statuses 404, 409 and 412 appear only as the `false`/`None` results they become, or as the exceptions that propagate.
  - A store fault is a per-call-kind rejection with a message. A fault stays in force for a whole handler call. Retries inside the SDK, throttling and transient faults that clear mid-call are not modelled.
  - The exception texts of the SDK and of `new Uri` are fixed strings in the model.
- Labels. Every call uses the null label, as the engine does.
- Secret versions. A secret URI's version segment is ignored, as the engine ignores it.
- `new Uri`:
  - It is modelled as a simplified absolute-URI grammar: scheme "://" authority path [?query] [#fragment].
  - Strings that .NET accepts but the grammar rejects therefore fail in the model. These include text with surrounding whitespace (which .NET trims), implicit file paths such as `/secrets/foo` on Unix, and `file:///x` with an empty authority.
  - Percent-decoding, normalisation and `ToString()` rewriting are not modelled. The URI text is kept as given.
  - OrdinalIgnoreCase is modelled as ASCII case folding.
- JSON serialisation of the result record. The message body is the record itself.
- The publisher's sender is not modelled beyond accept/reject. Its send-failure mode is a parameter of the publisher.
- Loggers are not parameters of any constructor, so their null checks are not modelled. `AppConfigurationClient` (AppConfigurationClient.cs line 35) and `KeyVaultSecretClient` (KeyVaultSecretClient.cs line 38) check the logger last, after every modelled check. `ResultTopicPublisher` checks it first (ResultTopicPublisher.cs line 20), before the topic name, so a null logger there would throw ArgumentNullException for 'logger' ahead of every modelled error.
- Credential factories are reduced to "present or missing", and the credential they create is not modelled. Dependency injection, options binding and the function triggers are not part of this model.
- Two store interfaces are missing from the repository:
  - The sync service calls `CheckConfigurationSettingAsync` and a hub read that returns a setting; neither is declared on the client interface. They are modelled as the store's existence check (`Get`) and a read returning the optional setting (`Fetch`).
  - The sync service's two Key Vault clients are never used and are not modelled.
- `ConfigSyncMessage` declares no `Value` property, but the handler reads one. The model gives the message an optional `value`.
- `ResultMessage` as declared lacks ServiceName, TraceId and SpanId, which the orchestrator sets. The model follows the orchestrator and includes them.
- The clock and `Activity.Current` are parameters (`now`, `ambient`) rather than ambient state.
- Behaviours of `ConfigSyncHandler` that the model keeps as the code has them:
  - KeyVaultReference Delete of an absent configuration key fails, so a redelivered Delete fails.
  - KeyVaultReference Delete does not skip a secret that is already gone: the vault's 404 is reported as a failure, and the key stays.
  - The configuration reference added locally points at the hub secret URI taken from the message.
  - Value Delete of an absent key fails with "Key does not exist for delete.", so a redelivered Delete fails.
  - Value Upsert reports a rejected write as Failure(message), because HandleAsync catches the store's exception.
  - A sync action outside the enum takes the Delete path, because only Upsert is tested for.

/** ConfigSyncHandler: reconciles one ConfigSyncMessage against the local App
    Configuration store and the local Key Vault, reading the hub Key Vault.
    Value messages write the plain value; KeyVaultReference messages copy the hub
    secret into the local vault and add a configuration key that references the
    hub secret URI. Every exception raised on the way is caught and reported as
    a failed Result carrying the exception's message.

    The pure functions below give the effect of one call on the three stores;
    the class ConfigSyncHandler runs the same steps against store objects and is
    proved to have exactly that effect. */
module ConfigSyncHandler {
  import opened Domain
  import opened Text
  import opened Uris
  import opened AppConfiguration
  import opened KeyVault

  const ValueRequiredMessage := "Value is required for Value sync."
  const KeyMissingForDeleteMessage := "Key does not exist for delete."
  const SecretUriRequiredMessage := "KeyVaultSecretUri is required."
  const HubSecretMissingMessage := "Hub Key Vault secret not found or empty."

  function UnsupportedTypeMessage(t: ConfigSyncMessageType): string
  {
    "Unsupported ConfigSyncMessageType: " + TypeName(t)
  }

  function InvalidSecretUriMessage(u: Uri): string
  {
    "Invalid Key Vault secret URI: " + u.text
  }

  /** GetSecretNameFromUri: the second non-empty segment of the URI path, provided
      there are at least two and the first is "secrets" in any letter case;
      otherwise an InvalidOperationException. */
  function GetSecretNameFromUri(u: Uri): (r: Try<string>)
    ensures var segments := Split(u.absolutePath, '/');
            r.Return? <==> |segments| >= 2 && EqualsOrdinalIgnoreCase(segments[0], "secrets")
    ensures r.Return? ==> r.value == Split(u.absolutePath, '/')[1]
    ensures r.Return? ==> |r.value| > 0 && '/' !in r.value
    ensures r.Throw? ==> r.exn == Exn(InvalidSecretUriMessage(u))
  {
    var segments := Split(u.absolutePath, '/');
    if |segments| < 2 || !EqualsOrdinalIgnoreCase(segments[0], "secrets") then
      Throw(Exn(InvalidSecretUriMessage(u)))
    else
      Return(segments[1])
  }

  /** A secret URI read from a message, with the secret name it designates. */
  datatype SecretReference = SecretReference(uri: Uri, secretName: string)

  /** `new Uri(text)` followed by GetSecretNameFromUri; either may throw. */
  function ParseSecretReference(text: string): (r: Try<SecretReference>)
    ensures r.Return? ==> r.value.uri.text == text && |r.value.secretName| > 0
  {
    var uri := ParseUri(text);
    if uri.Throw? then Throw(uri.exn)
    else
      var name := GetSecretNameFromUri(uri.value);
      if name.Throw? then Throw(name.exn)
      else Return(SecretReference(uri.value, name.value))
  }

  /** A path segment that a URI path may hold: non-empty, without '/', '?' or '#'. */
  predicate IsSegment(s: string)
  {
    |s| > 0 && '/' !in s && '?' !in s && '#' !in s
  }

  /** The secret reference of a URI scheme://vault/<segments>: the second segment when
      there are at least two and the first is "secrets" in any letter case, and
      otherwise the invalid-URI error naming the whole URI. */
  lemma SecretReferenceOfComposedUri(scheme: string, vault: string, segments: seq<string>)
    requires IsScheme(scheme)
    requires |vault| > 0 && forall i :: 0 <= i < |vault| ==> vault[i] !in {':', '/', '?', '#'}
    requires |segments| > 0 && forall k :: 0 <= k < |segments| ==> IsSegment(segments[k])
    ensures var path := JoinPath(segments);
            var u := Uri(scheme + "://" + vault + path, scheme, vault, path);
            ParseSecretReference(u.text)
            == if |segments| >= 2 && EqualsOrdinalIgnoreCase(segments[0], "secrets")
               then Return(SecretReference(u, segments[1]))
               else Throw(Exn(InvalidSecretUriMessage(u)))
  {
    JoinPathShape(segments);
    ParseComposedUri(scheme, vault, JoinPath(segments));
    SecretNameOfSegments(Uri(scheme + "://" + vault + JoinPath(segments), scheme, vault, JoinPath(segments)), segments);
  }

  /** The secret name of a URI whose path is made of the given segments. */
  lemma SecretNameOfSegments(u: Uri, segments: seq<string>)
    requires u.absolutePath == JoinPath(segments)
    requires forall k :: 0 <= k < |segments| ==> |segments[k]| > 0 && '/' !in segments[k]
    ensures GetSecretNameFromUri(u)
            == if |segments| >= 2 && EqualsOrdinalIgnoreCase(segments[0], "secrets")
               then Return(segments[1])
               else Throw(Exn(InvalidSecretUriMessage(u)))
  {
    SplitJoinPath(segments);
  }

  /** The worked example: a URI with path /secrets/foo/abcd1234 designates the secret foo. */
  lemma SecretNameExample(u: Uri)
    requires u.absolutePath == "/secrets/foo/abcd1234"
    ensures GetSecretNameFromUri(u) == Return("foo")
  {
    var segments := ["secrets", "foo", "abcd1234"];
    assert JoinPath(segments) == "/secrets/foo/abcd1234" by {
      assert segments[1..] == ["foo", "abcd1234"] && segments[1..][1..] == ["abcd1234"];
      assert ["abcd1234"][1..] == [];
    }
    SecretNameOfSegments(u, segments);
  }

  /** The collection name is matched ignoring case. */
  lemma SecretNameIgnoresCase(u: Uri)
    requires u.absolutePath == "/SECRETS/foo"
    ensures GetSecretNameFromUri(u) == Return("foo")
  {
    var segments := ["SECRETS", "foo"];
    assert JoinPath(segments) == "/SECRETS/foo" by {
      assert segments[1..] == ["foo"] && segments[1..][1..] == [];
    }
    assert EqualsOrdinalIgnoreCase(segments[0], "secrets") by {
      assert ToUpperAscii('s') == 'S' && ToUpperAscii('e') == 'E' && ToUpperAscii('c') == 'C';
      assert ToUpperAscii('r') == 'R' && ToUpperAscii('t') == 'T';
    }
    SecretNameOfSegments(u, segments);
  }

  /** A path of another collection is rejected. */
  lemma SecretNameRejectsOtherCollection(u: Uri)
    requires u.absolutePath == "/keys/foo"
    ensures GetSecretNameFromUri(u) == Throw(Exn(InvalidSecretUriMessage(u)))
  {
    var segments := ["keys", "foo"];
    assert JoinPath(segments) == "/keys/foo" by {
      assert segments[1..] == ["foo"] && segments[1..][1..] == [];
    }
    assert !EqualsOrdinalIgnoreCase(segments[0], "secrets");
    SecretNameOfSegments(u, segments);
  }

  /** A path with the collection alone and no secret name is rejected. */
  lemma SecretNameRejectsMissingName(u: Uri)
    requires u.absolutePath == "/secrets/"
    ensures GetSecretNameFromUri(u) == Throw(Exn(InvalidSecretUriMessage(u)))
  {
    var segments := ["secrets"];
    assert JoinPath(segments) + "/" == "/secrets/" by {
      assert segments[1..] == [];
    }
    SplitTrailingSeparator(JoinPath(segments), '/');
    SplitJoinPath(segments);
  }

  /** A path joined from segments starts with '/' and has no '?' or '#'. */
  lemma {:induction false} JoinPathShape(parts: seq<string>)
    requires parts != []
    requires forall k :: 0 <= k < |parts| ==> IsSegment(parts[k])
    ensures |JoinPath(parts)| > 0 && JoinPath(parts)[0] == '/'
    ensures '?' !in JoinPath(parts) && '#' !in JoinPath(parts)
  {
    if |parts| > 1 {
      JoinPathShape(parts[1..]);
    } else {
      assert JoinPath(parts[1..]) == "";
    }
    assert JoinPath(parts) == "/" + parts[0] + JoinPath(parts[1..]);
  }

  /** The effect of one handler step that may still throw. */
  datatype Step = Step(result: Try<Result>, localVault: VaultState, config: ConfigState)

  /** The effect of HandleAsync: a Result (never an exception) and the new local stores. */
  datatype Outcome = Outcome(result: Result, localVault: VaultState, config: ConfigState)

  /** HandleValueAsync. */
  function HandleValue(message: ConfigSyncMessage, local: VaultState, config: ConfigState): (s: Step)
    ensures s.localVault == local
  {
    if message.value.None? then
      Step(Return(Failure(ValueRequiredMessage)), local, config)
    else if message.syncAction == Upsert then
      var written := config.Set(message.key, message.value.value);
      if written.0.Throw? then Step(Throw(written.0.exn), local, written.1)
      else Step(Return(Success), local, written.1)
    else
      var found := config.Get(message.key);
      if found.Throw? then Step(Throw(found.exn), local, config)
      else if !found.value then Step(Return(Failure(KeyMissingForDeleteMessage)), local, config)
      else
        var deleted := config.Delete(message.key);
        if deleted.0.Throw? then Step(Throw(deleted.0.exn), local, deleted.1)
        else Step(Return(Success), local, deleted.1)
  }

  /** Copies a secret value into the local vault: Set when it exists there, Create
      otherwise (Create's false result is not looked at). */
  function MirrorSecret(local: VaultState, name: string, value: string): (r: (Try<()>, VaultState))
    ensures r.0.Throw? <==>
              ReadSecret in local.failing || WriteSecret in local.failing || (name in local.secrets && name in local.deleted)
    ensures r.0.Throw? ==> r.1 == local
    ensures r.0.Return? && name !in local.deleted ==> name in r.1.secrets && r.1.secrets[name] == Some(value)
    ensures r.0.Return? && name in local.deleted ==> r.1 == local
    ensures r.1.SameExcept(local, name) && r.1.deleted == local.deleted
    ensures local.Valid() ==> r.1.Valid()
  {
    var found := local.SecretExists(name);
    if found.Throw? then (Throw(found.exn), local)
    else if found.value then local.SetSecret(name, value)
    else
      var created := local.CreateSecret(name, value);
      if created.0.Throw? then (Throw(created.0.exn), created.1) else (Return(()), created.1)
  }

  /** The Upsert branch of HandleKeyVaultReferenceAsync, after the key was looked up. */
  function UpsertReference(
    key: string, ref: SecretReference, keyExists: bool,
    hub: VaultState, local: VaultState, config: ConfigState): (s: Step)
    ensures s.result.Return? && s.result.value.Failure? ==>
              s == Step(Return(Failure(HubSecretMissingMessage)), local, config)
    ensures s.result == Return(Success) && ref.secretName !in local.deleted ==>
              && ref.secretName in hub.secrets
              && ref.secretName in s.localVault.secrets
              && s.localVault.secrets[ref.secretName] == hub.secrets[ref.secretName]
    ensures s.result == Return(Success) && !keyExists ==> key in s.config.settings
    ensures s.result == Return(Success) && !keyExists && key !in config.settings ==>
              key in s.config.settings
              && s.config.settings[key] == Setting(KeyVaultReferenceValue(ref.uri.text), Some(KeyVaultReferenceContentType))
    ensures keyExists ==> s.config == config
    ensures s.localVault.SameExcept(local, ref.secretName) && s.config.SameExcept(config, key)
    ensures local.Valid() ==> s.localVault.Valid()
  {
    var hubSecret := hub.GetSecretValue(ref.secretName);
    if hubSecret.Throw? then Step(Throw(hubSecret.exn), local, config)
    else if hubSecret.value.None? || hubSecret.value.value.value.None? then
      Step(Return(Failure(HubSecretMissingMessage)), local, config)
    else
      var mirrored := MirrorSecret(local, ref.secretName, hubSecret.value.value.value.value);
      if mirrored.0.Throw? then Step(Throw(mirrored.0.exn), mirrored.1, config)
      else if keyExists then Step(Return(Success), mirrored.1, config)
      else
        var added := config.AddKeyVaultReference(key, Some(ref.uri), KeyVaultReferenceContentType);
        if added.0.Throw? then Step(Throw(added.0.exn), mirrored.1, added.1)
        else Step(Return(Success), mirrored.1, added.1)
  }

  /** The Delete branch of HandleKeyVaultReferenceAsync, after the key was looked up. */
  function DeleteReference(key: string, ref: SecretReference, keyExists: bool, local: VaultState, config: ConfigState): (s: Step)
    ensures !keyExists ==> s == Step(Return(Failure(KeyMissingForDeleteMessage)), local, config)
    ensures s.result == Return(Success) ==>
              ref.secretName !in s.localVault.secrets && ref.secretName in s.localVault.deleted && key !in s.config.settings
    ensures s.config != config ==> s.result == Return(Success)
    ensures s.localVault.SameExcept(local, ref.secretName) && s.config.SameExcept(config, key)
    ensures local.Valid() ==> s.localVault.Valid()
  {
    if !keyExists then Step(Return(Failure(KeyMissingForDeleteMessage)), local, config)
    else
      var secretDeleted := local.DeleteSecret(ref.secretName);
      if secretDeleted.0.Throw? then Step(Throw(secretDeleted.0.exn), secretDeleted.1, config)
      else
        var keyDeleted := config.Delete(key);
        if keyDeleted.0.Throw? then Step(Throw(keyDeleted.0.exn), secretDeleted.1, keyDeleted.1)
        else Step(Return(Success), secretDeleted.1, keyDeleted.1)
  }

  /** HandleKeyVaultReferenceAsync. */
  function HandleKeyVaultReference(message: ConfigSyncMessage, hub: VaultState, local: VaultState, config: ConfigState): (s: Step)
    ensures IsNullOrWhiteSpace(message.keyVaultSecretUri) ==>
              s == Step(Return(Failure(SecretUriRequiredMessage)), local, config)
    ensures !IsNullOrWhiteSpace(message.keyVaultSecretUri) && ParseSecretReference(message.keyVaultSecretUri.value).Throw? ==>
              s == Step(Throw(ParseSecretReference(message.keyVaultSecretUri.value).exn), local, config)
    ensures s.localVault != local || s.config != config ==>
              && !IsNullOrWhiteSpace(message.keyVaultSecretUri)
              && ParseSecretReference(message.keyVaultSecretUri.value).Return?
              && s.localVault.SameExcept(local, ParseSecretReference(message.keyVaultSecretUri.value).value.secretName)
              && s.config.SameExcept(config, message.key)
    ensures local.Valid() ==> s.localVault.Valid()
  {
    if IsNullOrWhiteSpace(message.keyVaultSecretUri) then
      Step(Return(Failure(SecretUriRequiredMessage)), local, config)
    else
      var ref := ParseSecretReference(message.keyVaultSecretUri.value);
      if ref.Throw? then Step(Throw(ref.exn), local, config)
      else
        var keyExists := config.Get(message.key);
        if keyExists.Throw? then Step(Throw(keyExists.exn), local, config)
        else if message.syncAction == Upsert then
          UpsertReference(message.key, ref.value, keyExists.value, hub, local, config)
        else
          DeleteReference(message.key, ref.value, keyExists.value, local, config)
  }

  /** The catch block of HandleAsync: an exception becomes Failure(ex.Message). */
  function Catch(s: Step): (o: Outcome)
    ensures s.result.Throw? ==> o.result == Failure(s.result.exn.message)
    ensures s.result.Return? ==> o.result == s.result.value
    ensures o.localVault == s.localVault && o.config == s.config
  {
    Outcome(if s.result.Throw? then Failure(s.result.exn.message) else s.result.value, s.localVault, s.config)
  }

  /** HandleAsync: dispatch on the message type. */
  function Handle(message: ConfigSyncMessage, hub: VaultState, local: VaultState, config: ConfigState): (o: Outcome)
    ensures message.messageType.Unrecognised? ==>
              o == Outcome(Failure(UnsupportedTypeMessage(message.messageType)), local, config)
    ensures message.messageType == Value ==> o.localVault == local
  {
    match message.messageType
    case Value => Catch(HandleValue(message, local, config))
    case KeyVaultReference => Catch(HandleKeyVaultReference(message, hub, local, config))
    case Unrecognised(_) => Outcome(Failure(UnsupportedTypeMessage(message.messageType)), local, config)
  }

  // ---------------------------------------------------------------------
  // Properties of one call and of repeated deliveries
  // ---------------------------------------------------------------------

  /** A Value message without a value fails before any store is touched. */
  lemma ValueWithoutValueFails(message: ConfigSyncMessage, hub: VaultState, local: VaultState, config: ConfigState)
    requires message.messageType == Value && message.value.None?
    ensures Handle(message, hub, local, config) == Outcome(Failure(ValueRequiredMessage), local, config)
  {
  }

  /** Value Upsert on a store that accepts writes succeeds and leaves exactly the
      message's value under the key, whatever was stored there before; a rejected
      write is reported with its message and changes nothing. */
  lemma ValueUpsertOverwrites(message: ConfigSyncMessage, hub: VaultState, local: VaultState, config: ConfigState)
    requires message.messageType == Value && message.syncAction == Upsert && message.value.Some?
    ensures var o := Handle(message, hub, local, config);
            WriteSetting !in config.failing ==>
              && o.result == Success
              && message.key in o.config.settings
              && o.config.settings[message.key] == Setting(message.value.value, None)
              && o.config.SameExcept(config, message.key)
              && o.localVault == local
    ensures WriteSetting in config.failing ==>
              Handle(message, hub, local, config) == Outcome(Failure(config.failing[WriteSetting]), local, config)
  {
  }

  /** Value Delete: an absent key fails and changes nothing; a present key is removed. */
  lemma ValueDeleteCases(message: ConfigSyncMessage, hub: VaultState, local: VaultState, config: ConfigState)
    requires message.messageType == Value && message.syncAction == Delete && message.value.Some?
    requires ReadSetting !in config.failing && RemoveSetting !in config.failing
    ensures var o := Handle(message, hub, local, config);
            && (message.key !in config.settings ==> o == Outcome(Failure(KeyMissingForDeleteMessage), local, config))
            && (message.key in config.settings ==>
                  o.result == Success && message.key !in o.config.settings
                  && o.config.SameExcept(config, message.key) && o.localVault == local)
  {
  }

  /** Value Delete is not idempotent: a delivery repeated after a successful delete fails. */
  lemma ValueDeleteNotIdempotent(message: ConfigSyncMessage, hub: VaultState, local: VaultState, config: ConfigState)
    requires message.messageType == Value && message.syncAction == Delete
    requires Handle(message, hub, local, config).result == Success
    ensures var o := Handle(message, hub, local, config);
            Handle(message, hub, o.localVault, o.config) == Outcome(Failure(KeyMissingForDeleteMessage), o.localVault, o.config)
  {
  }

  /** Only Upsert is tested for: an action value outside the enum is handled exactly
      as Delete, for both message types. */
  lemma UnrecognisedActionRunsDelete(message: ConfigSyncMessage, hub: VaultState, local: VaultState, config: ConfigState)
    requires message.syncAction.UnrecognisedAction?
    ensures Handle(message, hub, local, config) == Handle(message.(syncAction := Delete), hub, local, config)
  {
  }

  /** When the App Configuration store rejects reads, every message that gets as far
      as the key lookup fails with the store's message and nothing is written. */
  lemma ConfigReadRejectionBecomesFailure(message: ConfigSyncMessage, hub: VaultState, local: VaultState, config: ConfigState)
    requires ReadSetting in config.failing
    requires message.messageType == Value ==> message.value.Some? && message.syncAction == Delete
    requires message.messageType == KeyVaultReference ==>
               !IsNullOrWhiteSpace(message.keyVaultSecretUri)
               && ParseSecretReference(message.keyVaultSecretUri.value).Return?
    requires !message.messageType.Unrecognised?
    ensures Handle(message, hub, local, config) == Outcome(Failure(config.failing[ReadSetting]), local, config)
  {
  }

  /** A malformed secret URI is reported as a failure carrying the parser's message. */
  lemma MalformedSecretUriFails(message: ConfigSyncMessage, hub: VaultState, local: VaultState, config: ConfigState)
    requires message.messageType == KeyVaultReference && !IsNullOrWhiteSpace(message.keyVaultSecretUri)
    requires ParseSecretReference(message.keyVaultSecretUri.value).Throw?
    ensures Handle(message, hub, local, config)
            == Outcome(Failure(ParseSecretReference(message.keyVaultSecretUri.value).exn.message), local, config)
  {
  }

  /** The two early failures of KeyVaultReference sync write nothing: a blank secret
      URI, and a hub secret that is missing or has no value. */
  lemma KeyVaultReferenceEarlyFailures(message: ConfigSyncMessage, hub: VaultState, local: VaultState, config: ConfigState)
    requires message.messageType == KeyVaultReference
    ensures IsNullOrWhiteSpace(message.keyVaultSecretUri) ==>
              Handle(message, hub, local, config) == Outcome(Failure(SecretUriRequiredMessage), local, config)
    ensures !IsNullOrWhiteSpace(message.keyVaultSecretUri)
            && ParseSecretReference(message.keyVaultSecretUri.value).Return?
            && message.syncAction == Upsert && ReadSetting !in config.failing && ReadSecret !in hub.failing
            && (var name := ParseSecretReference(message.keyVaultSecretUri.value).value.secretName;
                name !in hub.secrets || hub.secrets[name].None?)
            ==> Handle(message, hub, local, config) == Outcome(Failure(HubSecretMissingMessage), local, config)
  {
  }

  /** KeyVaultReference Upsert with working stores and a hub secret holding `value`:
      the local secret takes the hub value (unless its name is soft-deleted locally, in
      which case Create reports a conflict that is ignored), and the configuration key
      is added as a reference to the hub URI only when it was absent. */
  lemma KeyVaultReferenceUpsertEffect(
    message: ConfigSyncMessage, ref: SecretReference, value: string,
    hub: VaultState, local: VaultState, config: ConfigState)
    requires message.messageType == KeyVaultReference && message.syncAction == Upsert
    requires !IsNullOrWhiteSpace(message.keyVaultSecretUri)
    requires ParseSecretReference(message.keyVaultSecretUri.value) == Return(ref)
    requires ReadSecret !in hub.failing && ref.secretName in hub.secrets && hub.secrets[ref.secretName] == Some(value)
    requires local.failing == map[] && config.failing == map[] && local.Valid()
    ensures var o := Handle(message, hub, local, config);
            && o.result == Success
            && (ref.secretName !in local.deleted ==>
                  ref.secretName in o.localVault.secrets && o.localVault.secrets[ref.secretName] == Some(value))
            && (ref.secretName in local.deleted ==> o.localVault == local)
            && o.localVault.SameExcept(local, ref.secretName) && o.localVault.Valid()
            && (message.key in config.settings ==> o.config == config)
            && (message.key !in config.settings ==>
                  && message.key in o.config.settings
                  && o.config.settings[message.key]
                     == Setting(KeyVaultReferenceValue(ref.uri.text), Some(KeyVaultReferenceContentType))
                  && o.config.SameExcept(config, message.key))
  {
  }

  /** No rollback: when adding the reference key is rejected, the local secret has
      already been written and stays written, and the call fails with the store's
      message. */
  lemma KeyVaultReferenceUpsertPartialWrite(
    message: ConfigSyncMessage, ref: SecretReference, value: string,
    hub: VaultState, local: VaultState, config: ConfigState)
    requires message.messageType == KeyVaultReference && message.syncAction == Upsert
    requires !IsNullOrWhiteSpace(message.keyVaultSecretUri)
    requires ParseSecretReference(message.keyVaultSecretUri.value) == Return(ref)
    requires ReadSecret !in hub.failing && ref.secretName in hub.secrets && hub.secrets[ref.secretName] == Some(value)
    requires local.failing == map[] && ref.secretName !in local.deleted
    requires ReadSetting !in config.failing && AddSetting in config.failing && message.key !in config.settings
    ensures var o := Handle(message, hub, local, config);
            && o.result == Failure(config.failing[AddSetting])
            && o.config == config
            && ref.secretName in o.localVault.secrets && o.localVault.secrets[ref.secretName] == Some(value)
  {
  }

  /** KeyVaultReference Upsert is idempotent under redelivery: a second identical call
      gives the same result and the same final stores; after a first call that wrote
      the secret, the second call finds it and takes the Set path. */
  lemma KeyVaultReferenceUpsertIdempotent(message: ConfigSyncMessage, hub: VaultState, local: VaultState, config: ConfigState)
    requires message.messageType == KeyVaultReference && message.syncAction == Upsert
    requires local.Valid()
    ensures var o := Handle(message, hub, local, config);
            Handle(message, hub, o.localVault, o.config) == o
  {
    if !IsNullOrWhiteSpace(message.keyVaultSecretUri) && ParseSecretReference(message.keyVaultSecretUri.value).Return? {
      var ref := ParseSecretReference(message.keyVaultSecretUri.value).value;
      var keyExists := config.Get(message.key);
      if keyExists.Return? {
        UpsertReferenceIdempotent(message.key, ref, keyExists.value, hub, local, config);
      }
    }
  }

  /** The idempotence argument on the Upsert branch itself: after one run the key
      lookup answers "present" unless the run failed before the key was added, and a
      second run from there repeats the first one's effect. */
  lemma UpsertReferenceIdempotent(
    key: string, ref: SecretReference, keyExists: bool,
    hub: VaultState, local: VaultState, config: ConfigState)
    requires local.Valid() && config.Get(key) == Return(keyExists)
    ensures var s := UpsertReference(key, ref, keyExists, hub, local, config);
            var again := s.config.Get(key);
            again.Return? && UpsertReference(key, ref, again.value, hub, s.localVault, s.config) == s
  {
    var name := ref.secretName;
    var hubSecret := hub.GetSecretValue(name);
    if hubSecret.Return? && hubSecret.value.Some? && hubSecret.value.value.value.Some? {
      var v := hubSecret.value.value.value.value;
      var m := MirrorSecret(local, name, v);
      if m.0.Return? || (m.0.Throw? && m.1 != local) {
        MirrorSecretIdempotent(local, name, v);
      }
    }
  }

  /** Mirroring the same value twice leaves the state of the first mirror, and gives
      the same outcome. */
  lemma MirrorSecretIdempotent(local: VaultState, name: string, value: string)
    requires local.Valid()
    ensures MirrorSecret(MirrorSecret(local, name, value).1, name, value) == MirrorSecret(local, name, value)
  {
    var m := MirrorSecret(local, name, value);
    if m.1 != local {
      assert m.1.secrets == local.secrets[name := Some(value)];
      assert m.1.secrets[name := Some(value)] == m.1.secrets;
    }
  }

  /** Redelivery after any failure of a KeyVaultReference Upsert: once the stores
      accept every call again, the redelivered message has the same outcome as a
      first delivery to the healed stores would have had. The partial writes of the
      failed attempt do no harm. */
  lemma KeyVaultReferenceUpsertRecovers(message: ConfigSyncMessage, hub: VaultState, local: VaultState, config: ConfigState)
    requires message.messageType == KeyVaultReference && message.syncAction == Upsert
    requires local.Valid()
    ensures var o := Handle(message, hub, local, config);
            Handle(message, hub, o.localVault.(failing := map[]), o.config.(failing := map[]))
            == Handle(message, hub, local.(failing := map[]), config.(failing := map[]))
  {
    if !IsNullOrWhiteSpace(message.keyVaultSecretUri) && ParseSecretReference(message.keyVaultSecretUri.value).Return? {
      var ref := ParseSecretReference(message.keyVaultSecretUri.value).value;
      var keyExists := config.Get(message.key);
      if keyExists.Return? {
        UpsertReferenceRecovers(message.key, ref, keyExists.value, hub, local, config);
      }
    }
  }

  /** The recovery argument on the Upsert branch itself. */
  lemma UpsertReferenceRecovers(
    key: string, ref: SecretReference, keyExists: bool,
    hub: VaultState, local: VaultState, config: ConfigState)
    requires local.Valid() && config.Get(key) == Return(keyExists)
    ensures var s := UpsertReference(key, ref, keyExists, hub, local, config);
            UpsertReference(key, ref, key in s.config.settings, hub, s.localVault.(failing := map[]), s.config.(failing := map[]))
            == UpsertReference(key, ref, keyExists, hub, local.(failing := map[]), config.(failing := map[]))
  {
    var name := ref.secretName;
    var hubSecret := hub.GetSecretValue(name);
    var healedConfig := config.(failing := map[]);
    if hubSecret.Return? && hubSecret.value.Some? && hubSecret.value.value.value.Some? {
      var v := hubSecret.value.value.value.value;
      var m := MirrorSecret(local, name, v);
      var m0 := MirrorSecret(local.(failing := map[]), name, v);
      MirrorSecretRecovers(local, name, v);
      assert m0.0.Return?;
      var s := UpsertReference(key, ref, keyExists, hub, local, config);
      if m.0.Throw? || keyExists {
        assert s.config == config;
      } else {
        var added := config.AddKeyVaultReference(key, Some(ref.uri), KeyVaultReferenceContentType);
        var added0 := healedConfig.AddKeyVaultReference(key, Some(ref.uri), KeyVaultReferenceContentType);
        assert added0.0 == Return(true);
        if added.0.Throw? {
          assert s.config == config;
        } else {
          assert s.config == added.1;
          assert added.1.(failing := map[]) == added0.1;
        }
      }
    }
  }

  /** Mirroring onto a healed vault gives the same result and state whether or not an
      earlier, possibly failed, mirror of the same value ran first. */
  lemma MirrorSecretRecovers(local: VaultState, name: string, value: string)
    requires local.Valid()
    ensures var m := MirrorSecret(local, name, value);
            MirrorSecret(m.1.(failing := map[]), name, value) == MirrorSecret(local.(failing := map[]), name, value)
  {
    var m := MirrorSecret(local, name, value);
    var healed := local.(failing := map[]);
    if m.1 != local {
      assert m.1.(failing := map[]) == MirrorSecret(healed, name, value).1;
      MirrorSecretIdempotent(healed, name, value);
    }
  }

  /** KeyVaultReference Delete: an absent configuration key fails and changes nothing;
      a present key with a live local secret soft-deletes the secret, then removes the
      key; a present key whose local secret is gone fails with the vault's 404 and keeps
      the key. */
  lemma KeyVaultReferenceDeleteCases(
    message: ConfigSyncMessage, ref: SecretReference,
    hub: VaultState, local: VaultState, config: ConfigState)
    requires message.messageType == KeyVaultReference && message.syncAction == Delete
    requires !IsNullOrWhiteSpace(message.keyVaultSecretUri)
    requires ParseSecretReference(message.keyVaultSecretUri.value) == Return(ref)
    requires RemoveSecret !in local.failing && ReadSetting !in config.failing && RemoveSetting !in config.failing
    ensures var o := Handle(message, hub, local, config);
            && (message.key !in config.settings ==> o == Outcome(Failure(KeyMissingForDeleteMessage), local, config))
            && (message.key in config.settings && ref.secretName in local.secrets ==>
                  && o.result == Success
                  && ref.secretName !in o.localVault.secrets
                  && ref.secretName in o.localVault.deleted
                  && o.localVault.SameExcept(local, ref.secretName)
                  && message.key !in o.config.settings
                  && o.config.SameExcept(config, message.key))
            && (message.key in config.settings && ref.secretName !in local.secrets ==>
                  o == Outcome(Failure(NotFoundMessage(ref.secretName)), local, config))
  {
  }

  /** KeyVaultReference Delete is not idempotent either: once it succeeded, a repeated
      delivery finds no configuration key and fails. */
  lemma KeyVaultReferenceDeleteNotIdempotent(message: ConfigSyncMessage, hub: VaultState, local: VaultState, config: ConfigState)
    requires message.messageType == KeyVaultReference && message.syncAction == Delete
    requires Handle(message, hub, local, config).result == Success
    ensures var o := Handle(message, hub, local, config);
            Handle(message, hub, o.localVault, o.config) == Outcome(Failure(KeyMissingForDeleteMessage), o.localVault, o.config)
  {
  }

  /** A KeyVaultReference Delete whose key removal is rejected after the secret was
      soft-deleted cannot be completed by redelivery: even once the store accepts
      every call again, each redelivery finds the key, tries to delete the secret,
      gets the vault's 404 and fails, so the key is never removed. */
  lemma KeyVaultReferenceDeleteStuckAfterPartialFailure(
    message: ConfigSyncMessage, ref: SecretReference,
    hub: VaultState, local: VaultState, config: ConfigState)
    requires message.messageType == KeyVaultReference && message.syncAction == Delete
    requires !IsNullOrWhiteSpace(message.keyVaultSecretUri)
    requires ParseSecretReference(message.keyVaultSecretUri.value) == Return(ref)
    requires message.key in config.settings && ref.secretName in local.secrets
    requires RemoveSecret !in local.failing && ReadSetting !in config.failing && RemoveSetting in config.failing
    ensures var o := Handle(message, hub, local, config);
            o.result == Failure(config.failing[RemoveSetting]) && o.config == config
            && ref.secretName !in o.localVault.secrets
    ensures var o := Handle(message, hub, local, config);
            var healed := config.(failing := map[]);
            Handle(message, hub, o.localVault, healed) == Outcome(Failure(NotFoundMessage(ref.secretName)), o.localVault, healed)
  {
  }

  // ---------------------------------------------------------------------
  // The handler object
  // ---------------------------------------------------------------------

  class ConfigSyncHandler {
    const hubKeyVault: KeyVaultSecretClient
    const localKeyVault: KeyVaultSecretClient
    const appConfig: AppConfigurationClient

    /** The hub and local vault clients are instances of two distinct client types. */
    constructor (hubKeyVault: KeyVaultSecretClient, localKeyVault: KeyVaultSecretClient, appConfig: AppConfigurationClient)
      requires hubKeyVault != localKeyVault
      ensures this.hubKeyVault == hubKeyVault && this.localKeyVault == localKeyVault && this.appConfig == appConfig
    {
      this.hubKeyVault := hubKeyVault;
      this.localKeyVault := localKeyVault;
      this.appConfig := appConfig;
    }

    /** HandleAsync. The hub vault is only read: it is outside the modifies clause. */
    method HandleAsync(message: ConfigSyncMessage) returns (r: Result)
      requires hubKeyVault != localKeyVault
      modifies localKeyVault, appConfig
      ensures Outcome(r, localKeyVault.State(), appConfig.State())
              == Handle(message, hubKeyVault.State(), old(localKeyVault.State()), old(appConfig.State()))
    {
      var handled: Try<Result>;
      match message.messageType {
        case Value =>
          handled := HandleValueAsync(message);
        case KeyVaultReference =>
          handled := HandleKeyVaultReferenceAsync(message);
        case Unrecognised(_) =>
          return Failure(UnsupportedTypeMessage(message.messageType));
      }
      if handled.Throw? {
        r := Failure(handled.exn.message);
      } else {
        r := handled.value;
      }
    }

    method HandleValueAsync(message: ConfigSyncMessage) returns (r: Try<Result>)
      modifies appConfig
      ensures Step(r, localKeyVault.State(), appConfig.State())
              == HandleValue(message, localKeyVault.State(), old(appConfig.State()))
    {
      if message.value.None? {
        return Return(Failure(ValueRequiredMessage));
      }
      if message.syncAction == Upsert {
        var written := appConfig.SetConfigurationSetting(message.key, message.value.value);
        if written.Throw? {
          return Throw(written.exn);
        }
        return Return(Success);
      }
      // Delete
      var found := appConfig.GetConfigurationSetting(message.key);
      if found.Throw? {
        return Throw(found.exn);
      }
      if !found.value {
        return Return(Failure(KeyMissingForDeleteMessage));
      }
      var deleted := appConfig.DeleteConfigurationSetting(message.key);
      if deleted.Throw? {
        return Throw(deleted.exn);
      }
      r := Return(Success);
    }

    method HandleKeyVaultReferenceAsync(message: ConfigSyncMessage) returns (r: Try<Result>)
      requires hubKeyVault != localKeyVault
      modifies localKeyVault, appConfig
      ensures Step(r, localKeyVault.State(), appConfig.State())
              == HandleKeyVaultReference(message, hubKeyVault.State(), old(localKeyVault.State()), old(appConfig.State()))
    {
      if IsNullOrWhiteSpace(message.keyVaultSecretUri) {
        return Return(Failure(SecretUriRequiredMessage));
      }
      var hubSecretUri := ParseUri(message.keyVaultSecretUri.value);
      if hubSecretUri.Throw? {
        return Throw(hubSecretUri.exn);
      }
      var secretName := GetSecretNameFromUri(hubSecretUri.value);
      if secretName.Throw? {
        return Throw(secretName.exn);
      }
      var name := secretName.value;
      ghost var ref := SecretReference(hubSecretUri.value, name);
      assert ParseSecretReference(message.keyVaultSecretUri.value) == Return(ref);

      var keyExists := appConfig.GetConfigurationSetting(message.key);
      if keyExists.Throw? {
        return Throw(keyExists.exn);
      }

      if message.syncAction == Upsert {
        var hubSecret := hubKeyVault.GetSecretValue(name);
        if hubSecret.Throw? {
          return Throw(hubSecret.exn);
        }
        if hubSecret.value.None? || hubSecret.value.value.value.None? {
          return Return(Failure(HubSecretMissingMessage));
        }
        var secretValue := hubSecret.value.value.value.value;

        var found := localKeyVault.SecretExists(name);
        if found.Throw? {
          return Throw(found.exn);
        }
        if found.value {
          var written := localKeyVault.SetSecret(name, secretValue);
          if written.Throw? {
            return Throw(written.exn);
          }
        } else {
          var created := localKeyVault.CreateSecret(name, secretValue);
          if created.Throw? {
            return Throw(created.exn);
          }
        }

        if !keyExists.value {
          var added := appConfig.AddKeyVaultReferenceConfigurationSetting(
            message.key, Some(hubSecretUri.value), KeyVaultReferenceContentType);
          if added.Throw? {
            return Throw(added.exn);
          }
        }
        return Return(Success);
      }

      // Delete
      if !keyExists.value {
        return Return(Failure(KeyMissingForDeleteMessage));
      }
      var secretDeleted := localKeyVault.DeleteSecret(name);
      if secretDeleted.Throw? {
        return Throw(secretDeleted.exn);
      }
      var keyDeleted := appConfig.DeleteConfigurationSetting(message.key);
      if keyDeleted.Throw? {
        return Throw(keyDeleted.exn);
      }
      r := Return(Success);
    }
  }
}

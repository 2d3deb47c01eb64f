/** The App Configuration store client: a remote key -> setting table with
    create-only Add, upsert Set and Delete, where "not found" (404) reads as
    `false` and "already exists" (412) on Add is returned as `false`.
    ConfigState is the table with its pure operations; AppConfigurationClient is
    the object whose methods change it in place. */
module AppConfiguration {
  import opened Domain
  import opened Text
  import opened Uris

  const PlainText := "text/plain"
  const KeyVaultReferenceContentType := "application/vnd.microsoft.appconfig.keyvaultref+json"

  const SecretUriNullMessage := "Value cannot be null. (Parameter 'secretUri')"
  const EndpointRequiredMessage := "Endpoint is required. (Parameter 'options')"
  /** The text of the NullReferenceException .NET raises when a null object is dereferenced. */
  const NullReferenceMessage := "Object reference not set to an instance of an object."

  /** A stored setting. `contentType` is None when the setting was written
      without one (Set sends only the key and the value). */
  datatype Setting = Setting(value: string, contentType: Option<string>)

  const UriPrefix := "{\"uri\":\""
  const UriSuffix := "\"}"

  /** The JSON value of a Key Vault reference: {"uri":"<uri>"}. */
  function KeyVaultReferenceValue(uri: string): string
  {
    UriPrefix + uri + UriSuffix
  }

  /** Reads back the URI of a Key Vault reference value; None for any other shape. */
  function ReferencedUri(value: string): (r: Option<string>)
    ensures r.Some? ==> |r.value| + |UriPrefix| + |UriSuffix| == |value|
  {
    var n := |UriPrefix| + |UriSuffix|;
    if |value| >= n && value[..|UriPrefix|] == UriPrefix && value[|value| - |UriSuffix|..] == UriSuffix
    then Some(value[|UriPrefix|..|value| - |UriSuffix|])
    else None
  }

  /** Decoding an encoded reference gives back the URI it was built from. */
  lemma ReferencedUriOfValue(uri: string)
    ensures ReferencedUri(KeyVaultReferenceValue(uri)) == Some(uri)
  {
    var v := KeyVaultReferenceValue(uri);
    assert v[..|UriPrefix|] == UriPrefix;
    assert v[|v| - |UriSuffix|..] == UriSuffix;
    assert v[|UriPrefix|..|v| - |UriSuffix|] == uri;
  }

  /** Two references are equal exactly when they point at the same URI. */
  lemma KeyVaultReferenceValueInjective(a: string, b: string)
    ensures KeyVaultReferenceValue(a) == KeyVaultReferenceValue(b) <==> a == b
  {
    if KeyVaultReferenceValue(a) == KeyVaultReferenceValue(b) {
      ReferencedUriOfValue(a);
      ReferencedUriOfValue(b);
    }
  }

  /** CreateKeyVaultReferenceSetting: a null URI throws; otherwise the setting holds
      the encoded reference under the given content type. */
  function CreateKeyVaultReferenceSetting(secretUri: Option<Uri>, contentType: string): (r: Try<Setting>)
    ensures r.Throw? <==> secretUri.None?
    ensures r.Throw? ==> r.exn.message == SecretUriNullMessage
    ensures r.Return? ==> r.value.contentType == Some(contentType)
    ensures r.Return? ==> ReferencedUri(r.value.value) == Some(secretUri.value.text)
  {
    if secretUri.None? then Throw(Exn(SecretUriNullMessage))
    else
      ReferencedUriOfValue(secretUri.value.text);
      Return(Setting(KeyVaultReferenceValue(secretUri.value.text), Some(contentType)))
  }

  /** The calls of the App Configuration data API the engine makes. */
  datatype ConfigCall = ReadSetting | AddSetting | WriteSetting | RemoveSetting

  /** The remote table of one App Configuration store. `failing` holds the calls the
      service currently rejects (an outage, a missing data-plane permission), each
      with the message of the exception it raises; a rejected call changes nothing. */
  datatype ConfigState = ConfigState(settings: map<string, Setting>, failing: map<ConfigCall, string>)
  {
    /** GetConfigurationSettingAsync: does the key exist (404 reads as false)? */
    function Get(key: string): (r: Try<bool>)
      ensures r.Throw? <==> ReadSetting in failing
      ensures r.Throw? ==> r.exn == Exn(failing[ReadSetting])
      ensures r.Return? ==> (r.value <==> key in settings)
    {
      if ReadSetting in failing then Throw(Exn(failing[ReadSetting])) else Return(key in settings)
    }

    /** The setting stored under a key, None when there is none (read of a hub store). */
    function Fetch(key: string): (r: Try<Option<Setting>>)
      ensures r.Throw? <==> ReadSetting in failing
      ensures r.Throw? ==> r.exn == Exn(failing[ReadSetting])
      ensures r.Return? ==> (r.value.Some? <==> key in settings)
      ensures r.Return? && r.value.Some? ==> r.value.value == settings[key]
    {
      if ReadSetting in failing then Throw(Exn(failing[ReadSetting]))
      else if key in settings then Return(Some(settings[key]))
      else Return(None)
    }

    /** The stored settings agree on every key other than `key`, and the same calls fail. */
    ghost predicate SameExcept(other: ConfigState, key: string)
    {
      failing == other.failing
      && (forall k :: k != key ==> (k in settings <==> k in other.settings))
      && (forall k :: k != key && k in settings ==> settings[k] == other.settings[k])
    }

    /** The create-only write shared by Add and AddKeyVaultReference. */
    function Create(key: string, setting: Setting): (r: (Try<bool>, ConfigState))
    {
      if AddSetting in failing then (Throw(Exn(failing[AddSetting])), this)
      else if key in settings then (Return(false), this)
      else (Return(true), this.(settings := settings[key := setting]))
    }

    /** AddConfigurationSettingAsync: creates the key, or returns false (412) when it exists. */
    function Add(key: string, value: string, contentType: string): (r: (Try<bool>, ConfigState))
      ensures r.0.Throw? <==> AddSetting in failing
      ensures r.0.Throw? ==> r.0.exn == Exn(failing[AddSetting])
      ensures r.0 == Return(true) <==> AddSetting !in failing && key !in settings
      ensures r.0 != Return(true) ==> r.1 == this
      ensures r.0 == Return(true) ==> key in r.1.settings && r.1.settings[key] == Setting(value, Some(contentType))
      ensures r.0.Return? ==> key in r.1.settings
      ensures r.1.SameExcept(this, key)
    {
      Create(key, Setting(value, Some(contentType)))
    }

    /** AddKeyVaultReferenceConfigurationSettingAsync: the same create-only write of an
        encoded reference; a null URI throws before the store is reached. */
    function AddKeyVaultReference(key: string, secretUri: Option<Uri>, contentType: string): (r: (Try<bool>, ConfigState))
      ensures secretUri.None? ==> r == (Throw(Exn(SecretUriNullMessage)), this)
      ensures secretUri.Some? ==> (r.0.Throw? <==> AddSetting in failing)
      ensures secretUri.Some? ==> (r.0 == Return(true) <==> AddSetting !in failing && key !in settings)
      ensures r.0 != Return(true) ==> r.1 == this
      ensures r.0 == Return(true) ==>
                key in r.1.settings && r.1.settings[key] == Setting(KeyVaultReferenceValue(secretUri.value.text), Some(contentType))
      ensures r.0.Return? ==> key in r.1.settings
      ensures r.1.SameExcept(this, key)
    {
      var setting := CreateKeyVaultReferenceSetting(secretUri, contentType);
      if setting.Throw? then (Throw(setting.exn), this)
      else Create(key, setting.value)
    }

    /** SetConfigurationSettingAsync: an upsert. The setting is rebuilt from key and
        value alone, so it no longer carries a content type. */
    function Set(key: string, value: string): (r: (Try<()>, ConfigState))
      ensures r.0.Throw? <==> WriteSetting in failing
      ensures r.0.Throw? ==> r.0.exn == Exn(failing[WriteSetting]) && r.1 == this
      ensures r.0.Return? ==> key in r.1.settings && r.1.settings[key] == Setting(value, None)
      ensures r.1.SameExcept(this, key)
    {
      if WriteSetting in failing then (Throw(Exn(failing[WriteSetting])), this)
      else (Return(()), this.(settings := settings[key := Setting(value, None)]))
    }

    /** DeleteConfigurationSettingAsync: removes the key; an absent key is not an error. */
    function Delete(key: string): (r: (Try<()>, ConfigState))
      ensures r.0.Throw? <==> RemoveSetting in failing
      ensures r.0.Throw? ==> r.0.exn == Exn(failing[RemoveSetting]) && r.1 == this
      ensures r.0.Return? ==> key !in r.1.settings
      ensures r.1.SameExcept(this, key)
    {
      if RemoveSetting in failing then (Throw(Exn(failing[RemoveSetting])), this)
      else (Return(()), this.(settings := settings - {key}))
    }
  }

  /** Set is idempotent: writing the same value twice leaves the state of one write. */
  lemma SetIdempotent(s: ConfigState, key: string, value: string)
    ensures s.Set(key, value).1.Set(key, value).1 == s.Set(key, value).1
  {
  }

  /** Add after a successful Add of the same key reports "already exists". */
  lemma AddTwiceReportsExisting(s: ConfigState, key: string, value: string, contentType: string)
    requires s.Add(key, value, contentType).0 == Return(true)
    ensures s.Add(key, value, contentType).1.Add(key, value, contentType) == (Return(false), s.Add(key, value, contentType).1)
  {
  }

  class AppConfigurationClient {
    const endpoint: Uri
    var settings: map<string, Setting>
    var failing: map<ConfigCall, string>

    function State(): ConfigState
      reads this
    {
      ConfigState(settings, failing)
    }

    constructor (endpoint: Uri, settings: map<string, Setting>, failing: map<ConfigCall, string>)
      ensures this.endpoint == endpoint
      ensures State() == ConfigState(settings, failing)
    {
      this.endpoint := endpoint;
      this.settings := settings;
      this.failing := failing;
    }

    /** The public constructor: a blank endpoint is rejected, and so is one that
        is not an absolute URI. The URI is built before the credential is asked for,
        so a missing credential factory is only dereferenced once the endpoint has
        parsed, and then fails with the runtime's null-reference error. The store is
        connected with its current contents. */
    static method Connect(
      endpoint: Option<string>, hasCredentialFactory: bool,
      settings: map<string, Setting>, failing: map<ConfigCall, string>)
      returns (r: Try<AppConfigurationClient>)
      ensures IsNullOrWhiteSpace(endpoint) ==> r == Throw(Exn(EndpointRequiredMessage))
      ensures !IsNullOrWhiteSpace(endpoint) && ParseUri(endpoint.value).Throw? ==> r == Throw(Exn(InvalidUriMessage))
      ensures !IsNullOrWhiteSpace(endpoint) && ParseUri(endpoint.value).Return? && !hasCredentialFactory ==>
                r == Throw(Exn(NullReferenceMessage))
      ensures r.Return? <==> !IsNullOrWhiteSpace(endpoint) && ParseUri(endpoint.value).Return? && hasCredentialFactory
      ensures r.Return? ==> fresh(r.value) && r.value.State() == ConfigState(settings, failing)
    {
      if IsNullOrWhiteSpace(endpoint) {
        return Throw(Exn(EndpointRequiredMessage));
      }
      var uri := ParseUri(endpoint.value);
      if uri.Throw? {
        return Throw(uri.exn);
      }
      if !hasCredentialFactory {
        return Throw(Exn(NullReferenceMessage));
      }
      var client := new AppConfigurationClient(uri.value, settings, failing);
      r := Return(client);
    }

    method GetConfigurationSetting(key: string) returns (r: Try<bool>)
      ensures r == State().Get(key)
    {
      if ReadSetting in failing {
        return Throw(Exn(failing[ReadSetting]));
      }
      r := Return(key in settings);
    }

    method FetchConfigurationSetting(key: string) returns (r: Try<Option<Setting>>)
      ensures r == State().Fetch(key)
    {
      if ReadSetting in failing {
        return Throw(Exn(failing[ReadSetting]));
      }
      if key in settings {
        r := Return(Some(settings[key]));
      } else {
        r := Return(None);
      }
    }

    method AddConfigurationSetting(key: string, value: string, contentType: string) returns (r: Try<bool>)
      modifies this
      ensures (r, State()) == old(State()).Add(key, value, contentType)
    {
      if AddSetting in failing {
        return Throw(Exn(failing[AddSetting]));
      }
      if key in settings {
        return Return(false);
      }
      settings := settings[key := Setting(value, Some(contentType))];
      r := Return(true);
    }

    method AddKeyVaultReferenceConfigurationSetting(key: string, secretUri: Option<Uri>, contentType: string)
      returns (r: Try<bool>)
      modifies this
      ensures (r, State()) == old(State()).AddKeyVaultReference(key, secretUri, contentType)
    {
      var setting := CreateKeyVaultReferenceSetting(secretUri, contentType);
      if setting.Throw? {
        return Throw(setting.exn);
      }
      if AddSetting in failing {
        return Throw(Exn(failing[AddSetting]));
      }
      if key in settings {
        return Return(false);
      }
      settings := settings[key := setting.value];
      r := Return(true);
    }

    method SetConfigurationSetting(key: string, value: string) returns (r: Try<()>)
      modifies this
      ensures (r, State()) == old(State()).Set(key, value)
    {
      if WriteSetting in failing {
        return Throw(Exn(failing[WriteSetting]));
      }
      settings := settings[key := Setting(value, None)];
      r := Return(());
    }

    method DeleteConfigurationSetting(key: string) returns (r: Try<()>)
      modifies this
      ensures (r, State()) == old(State()).Delete(key)
    {
      if RemoveSetting in failing {
        return Throw(Exn(failing[RemoveSetting]));
      }
      settings := settings - {key};
      r := Return(());
    }
  }
}

/** The Key Vault secret client: a remote name -> secret table. A deleted secret
    stays soft-deleted: it no longer reads (404 -> null), and its name cannot be
    written again until it is purged or recovered (409 Conflict).
    VaultState is the table with its pure operations; KeyVaultSecretClient is
    the object whose methods change it in place. */
module KeyVault {
  import opened Domain
  import opened Text
  import opened Uris

  const VaultUriRequiredMessage := "VaultUri is required. (Parameter 'Endpoint')"
  const CredentialFactoryNullMessage := "Value cannot be null. (Parameter 'credentialFactory')"

  /** Text of the 409 raised by a write to a soft-deleted name. */
  function ConflictMessage(name: string): string
  {
    "Secret " + name + " is currently in a deleted but recoverable state, and its name cannot be reused."
  }

  /** Text of the 404 raised by deleting a secret that does not exist. */
  function NotFoundMessage(name: string): string
  {
    "A secret with (name/id) " + name + " was not found in this key vault."
  }

  /** The (Id, Name, Value) triple returned by GetSecretValue. */
  datatype SecretProperties = SecretProperties(id: string, name: string, value: Option<string>)

  /** The calls of the Key Vault secrets API the client makes (CreateSecret and
      SetSecret go through the same write call). */
  datatype VaultCall = ReadSecret | WriteSecret | RemoveSecret

  /** The remote table of one vault. `secrets` holds the live secrets (a value may be
      null), `deleted` the soft-deleted names. `failing` holds the calls the vault
      currently rejects (an outage, a missing permission), each with the message of
      the exception it raises; a rejected call changes nothing. */
  datatype VaultState = VaultState(
    vaultUri: string,
    secrets: map<string, Option<string>>,
    deleted: set<string>,
    failing: map<VaultCall, string>)
  {
    /** A name is never live and soft-deleted at once. */
    ghost predicate Valid()
    {
      secrets.Keys !! deleted
    }

    function SecretId(name: string): string
    {
      vaultUri + "/secrets/" + name
    }

    /** GetSecretValue: the secret's properties, or None when it is not found (404). */
    function GetSecretValue(name: string): (r: Try<Option<SecretProperties>>)
      ensures r.Throw? <==> ReadSecret in failing
      ensures r.Throw? ==> r.exn == Exn(failing[ReadSecret])
      ensures r.Return? ==> (r.value.Some? <==> name in secrets)
      ensures r.Return? && r.value.Some? ==> r.value.value == SecretProperties(SecretId(name), name, secrets[name])
    {
      if ReadSecret in failing then Throw(Exn(failing[ReadSecret]))
      else if name in secrets then Return(Some(SecretProperties(SecretId(name), name, secrets[name])))
      else Return(None)
    }

    /** SecretExists: true when the read returns a secret with a name. */
    function SecretExists(name: string): (r: Try<bool>)
      ensures r == Return(true) <==> GetSecretValue(name).Return? && GetSecretValue(name).value.Some?
      ensures r == Return(false) <==> GetSecretValue(name) == Return(None)
      ensures r.Throw? <==> GetSecretValue(name).Throw?
      ensures r.Throw? ==> r.exn == GetSecretValue(name).exn
    {
      var secret := GetSecretValue(name);
      if secret.Throw? then Throw(secret.exn)
      else if secret.value.None? then Return(false)
      else Return(true)
    }

    /** The vaults agree on every name other than `name`, and the same calls fail. */
    ghost predicate SameExcept(other: VaultState, name: string)
    {
      vaultUri == other.vaultUri && failing == other.failing
      && (forall n :: n != name ==> (n in secrets <==> n in other.secrets))
      && (forall n :: n != name && n in secrets ==> secrets[n] == other.secrets[n])
      && deleted - {name} == other.deleted - {name}
    }

    /** CreateSecret: writes the secret through the same call as SetSecret;
        a 409 (soft-deleted name) is returned as false with no change. */
    function CreateSecret(name: string, value: string): (r: (Try<bool>, VaultState))
      ensures r.0 == Return(false) <==> WriteSecret !in failing && name in deleted
      ensures r.0.Throw? <==> WriteSecret in failing
      ensures r.0.Throw? ==> r.0.exn == Exn(failing[WriteSecret])
      ensures r.0 != Return(true) ==> r.1 == this
      ensures r.0 == Return(true) ==> name in r.1.secrets && r.1.secrets[name] == Some(value)
      ensures r.1.SameExcept(this, name) && r.1.deleted == deleted
      ensures Valid() ==> r.1.Valid()
    {
      if WriteSecret in failing then (Throw(Exn(failing[WriteSecret])), this)
      else if name in deleted then (Return(false), this)
      else (Return(true), this.(secrets := secrets[name := Some(value)]))
    }

    /** SetSecret: overwrites (or creates) the secret; a soft-deleted name throws. */
    function SetSecret(name: string, value: string): (r: (Try<()>, VaultState))
      ensures r.0.Throw? <==> WriteSecret in failing || name in deleted
      ensures r.0.Throw? ==> r.1 == this
      ensures WriteSecret in failing ==> r.0 == Throw(Exn(failing[WriteSecret]))
      ensures WriteSecret !in failing && name in deleted ==> r.0 == Throw(Exn(ConflictMessage(name)))
      ensures r.0.Return? ==> name in r.1.secrets && r.1.secrets[name] == Some(value)
      ensures r.1.SameExcept(this, name) && r.1.deleted == deleted
      ensures Valid() ==> r.1.Valid()
    {
      if WriteSecret in failing then (Throw(Exn(failing[WriteSecret])), this)
      else if name in deleted then (Throw(Exn(ConflictMessage(name))), this)
      else (Return(()), this.(secrets := secrets[name := Some(value)]))
    }

    /** DeleteSecret: soft-deletes the named secret only; a missing secret throws (404). */
    function DeleteSecret(name: string): (r: (Try<()>, VaultState))
      ensures r.0.Throw? <==> RemoveSecret in failing || name !in secrets
      ensures r.0.Throw? ==> r.1 == this
      ensures RemoveSecret in failing ==> r.0 == Throw(Exn(failing[RemoveSecret]))
      ensures RemoveSecret !in failing && name !in secrets ==> r.0 == Throw(Exn(NotFoundMessage(name)))
      ensures r.0.Return? ==> name !in r.1.secrets && name in r.1.deleted
      ensures r.1.SameExcept(this, name)
      ensures Valid() ==> r.1.Valid()
    {
      if RemoveSecret in failing then (Throw(Exn(failing[RemoveSecret])), this)
      else if name !in secrets then (Throw(Exn(NotFoundMessage(name))), this)
      else (Return(()), this.(secrets := secrets - {name}, deleted := deleted + {name}))
    }
  }

  /** Create and Set write the same thing when Create succeeds. */
  lemma CreateIsSet(v: VaultState, name: string, value: string)
    requires v.CreateSecret(name, value).0 == Return(true)
    ensures v.SetSecret(name, value) == (Return(()), v.CreateSecret(name, value).1)
  {
  }

  /** After a Set, reading the secret returns the new value. */
  lemma SetThenGet(v: VaultState, name: string, value: string)
    requires v.SetSecret(name, value).0.Return? && ReadSecret !in v.failing
    ensures v.SetSecret(name, value).1.SecretExists(name) == Return(true)
    ensures v.SetSecret(name, value).1.GetSecretValue(name).value.value.value == Some(value)
  {
  }

  /** A deleted name cannot be created again: Create reports a conflict and changes nothing. */
  lemma DeleteThenCreateConflicts(v: VaultState, name: string, value: string)
    requires v.DeleteSecret(name).0.Return? && WriteSecret !in v.failing
    ensures v.DeleteSecret(name).1.CreateSecret(name, value) == (Return(false), v.DeleteSecret(name).1)
  {
  }

  class KeyVaultSecretClient {
    const vaultUri: string
    var secrets: map<string, Option<string>>
    var deleted: set<string>
    var failing: map<VaultCall, string>

    function State(): VaultState
      reads this
    {
      VaultState(vaultUri, secrets, deleted, failing)
    }

    constructor (vaultUri: string, secrets: map<string, Option<string>>, deleted: set<string>, failing: map<VaultCall, string>)
      ensures State() == VaultState(vaultUri, secrets, deleted, failing)
    {
      this.vaultUri := vaultUri;
      this.secrets := secrets;
      this.deleted := deleted;
      this.failing := failing;
    }

    /** The public constructor: a blank endpoint and a missing credential factory are
        rejected; the endpoint must be an absolute URI. Secret ids are rooted at the
        endpoint's scheme and authority. */
    static method Connect(
      endpoint: Option<string>, hasCredentialFactory: bool,
      secrets: map<string, Option<string>>, deleted: set<string>, failing: map<VaultCall, string>)
      returns (r: Try<KeyVaultSecretClient>)
      ensures IsNullOrWhiteSpace(endpoint) ==> r == Throw(Exn(VaultUriRequiredMessage))
      ensures !IsNullOrWhiteSpace(endpoint) && !hasCredentialFactory ==> r == Throw(Exn(CredentialFactoryNullMessage))
      ensures r.Return? <==> !IsNullOrWhiteSpace(endpoint) && hasCredentialFactory && ParseUri(endpoint.value).Return?
      ensures r.Return? ==> fresh(r.value)
      ensures r.Return? ==> r.value.State().secrets == secrets && r.value.State().deleted == deleted
      ensures r.Return? ==> r.value.State().failing == failing
    {
      if IsNullOrWhiteSpace(endpoint) {
        return Throw(Exn(VaultUriRequiredMessage));
      }
      if !hasCredentialFactory {
        return Throw(Exn(CredentialFactoryNullMessage));
      }
      var uri := ParseUri(endpoint.value);
      if uri.Throw? {
        return Throw(uri.exn);
      }
      var client := new KeyVaultSecretClient(uri.value.scheme + "://" + uri.value.authority, secrets, deleted, failing);
      r := Return(client);
    }

    method SecretExists(name: string) returns (r: Try<bool>)
      ensures r == State().SecretExists(name)
    {
      var secret := GetSecretValue(name);
      if secret.Throw? {
        return Throw(secret.exn);
      }
      if secret.value.None? {
        return Return(false);
      }
      r := Return(true);
    }

    method GetSecretValue(name: string) returns (r: Try<Option<SecretProperties>>)
      ensures r == State().GetSecretValue(name)
    {
      if ReadSecret in failing {
        return Throw(Exn(failing[ReadSecret]));
      }
      if name in secrets {
        r := Return(Some(SecretProperties(vaultUri + "/secrets/" + name, name, secrets[name])));
      } else {
        r := Return(None);
      }
    }

    method CreateSecret(name: string, value: string) returns (r: Try<bool>)
      modifies this
      ensures (r, State()) == old(State()).CreateSecret(name, value)
    {
      if WriteSecret in failing {
        return Throw(Exn(failing[WriteSecret]));
      }
      if name in deleted {
        return Return(false);
      }
      secrets := secrets[name := Some(value)];
      r := Return(true);
    }

    method SetSecret(name: string, value: string) returns (r: Try<()>)
      modifies this
      ensures (r, State()) == old(State()).SetSecret(name, value)
    {
      if WriteSecret in failing {
        return Throw(Exn(failing[WriteSecret]));
      }
      if name in deleted {
        return Throw(Exn(ConflictMessage(name)));
      }
      secrets := secrets[name := Some(value)];
      r := Return(());
    }

    method DeleteSecret(name: string) returns (r: Try<()>)
      modifies this
      ensures (r, State()) == old(State()).DeleteSecret(name)
    {
      if RemoveSecret in failing {
        return Throw(Exn(failing[RemoveSecret]));
      }
      if name !in secrets {
        return Throw(Exn(NotFoundMessage(name)));
      }
      secrets := secrets - {name};
      deleted := deleted + {name};
      r := Return(());
    }
  }
}

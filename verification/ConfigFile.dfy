/**
 Protection of the configuration file (kernel/src/config.rs): which key a save
 seals the file under, what it refuses, and what a load may change.

 Encryption is ideal: an envelope opens exactly with the key that sealed it.
 Derivation is injective on the bytes it hashes, so a key is the text that is
 hashed after the fixed label.  Writing is atomic and may fail.
 */
module ConfigFile {
  import opened Common

  // ------------------------------------------------------------------
  // Configurations and their credentials
  // ------------------------------------------------------------------

  const CREDENTIAL_FIELDS: nat := 17

  datatype Provider = Provider(id: string, apiKey: string)

  /** `fields` are the credential fields in their fixed order; `other` is everything else. */
  datatype RawConfig = RawConfig(fields: seq<string>, providers: seq<Provider>, other: string)

  type Config = c: RawConfig | |c.fields| == CREDENTIAL_FIELDS
    witness RawConfig(seq(CREDENTIAL_FIELDS, i => ""), [], "")

  const DEFAULT: Config := RawConfig(seq(CREDENTIAL_FIELDS, i => ""), [], "default")

  /** A credential is a secret in its place. */
  datatype Credential = Field(index: nat, secret: string) | ProviderKey(id: string, secret: string)

  function Credentials(config: Config): set<Credential> {
    (set i | 0 <= i < CREDENTIAL_FIELDS && config.fields[i] != "" :: Field(i, config.fields[i])) +
    (set i | 0 <= i < |config.providers| && config.providers[i].apiKey != "" ::
       ProviderKey(config.providers[i].id, config.providers[i].apiKey))
  }

  function StoredCredentials(stored: Option<Config>): set<Credential> {
    if stored.Some? then Credentials(stored.value) else {}
  }

  predicate FieldAdded(stored: Option<Config>, next: Config) {
    exists i :: 0 <= i < CREDENTIAL_FIELDS && next.fields[i] != "" &&
                (stored.Some? ==> stored.value.fields[i] != next.fields[i])
  }

  predicate Keeps(stored: Option<Config>, provider: Provider) {
    stored.Some? && exists j :: 0 <= j < |stored.value.providers| && stored.value.providers[j] == provider
  }

  predicate ProviderKeyAdded(stored: Option<Config>, next: Config) {
    exists i :: 0 <= i < |next.providers| && next.providers[i].apiKey != "" && !Keeps(stored, next.providers[i])
  }

  /** Whether a save adds or changes a credential. */
  predicate IntroducesCredentials(stored: Option<Config>, next: Config) {
    FieldAdded(stored, next) || ProviderKeyAdded(stored, next)
  }

  /** ... which is exactly holding a credential that was not stored in the same place. */
  lemma IntroducesExactly(stored: Option<Config>, next: Config)
    ensures IntroducesCredentials(stored, next) <==> !(Credentials(next) <= StoredCredentials(stored))
  {
    if FieldAdded(stored, next) {
      var i :| 0 <= i < CREDENTIAL_FIELDS && next.fields[i] != "" &&
               (stored.Some? ==> stored.value.fields[i] != next.fields[i]);
      assert Field(i, next.fields[i]) in Credentials(next) - StoredCredentials(stored);
    } else if ProviderKeyAdded(stored, next) {
      var i :| 0 <= i < |next.providers| && next.providers[i].apiKey != "" && !Keeps(stored, next.providers[i]);
      var provider := next.providers[i];
      assert ProviderKey(provider.id, provider.apiKey) in Credentials(next);
    } else {
      forall credential | credential in Credentials(next) ensures credential in StoredCredentials(stored) {
        StoredAlready(stored, next, credential);
      }
    }
  }

  lemma StoredAlready(stored: Option<Config>, next: Config, credential: Credential)
    requires !FieldAdded(stored, next) && !ProviderKeyAdded(stored, next) && credential in Credentials(next)
    ensures credential in StoredCredentials(stored)
  {
    if credential.Field? {
      assert next.fields[credential.index] != "";
    } else {
      var i :| 0 <= i < |next.providers| && next.providers[i].apiKey != ""
               && credential == ProviderKey(next.providers[i].id, next.providers[i].apiKey);
      assert Keeps(stored, next.providers[i]);
    }
  }

  // ------------------------------------------------------------------
  // Keys
  // ------------------------------------------------------------------

  /** Unicode White_Space, as `str::trim` strips it. */
  predicate IsWhitespace(c: char) {
    || '\t' <= c <= '\r' || c == ' ' || c == '\U{0085}' || c == '\U{00A0}' || c == '\U{1680}'
    || '\U{2000}' <= c <= '\U{200A}' || c == '\U{2028}' || c == '\U{2029}' || c == '\U{202F}' || c == '\U{205F}'
    || c == '\U{3000}'
  }

  predicate Blank(text: string) {
    forall i :: 0 <= i < |text| ==> IsWhitespace(text[i])
  }

  type Key = string

  /** The explicit value of NEXUS_CONFIG_KEY, and HOME, USER, USERNAME and HOSTNAME. */
  datatype KeyMaterial = KeyMaterial(explicit: Option<string>, ambient: seq<Option<string>>)

  function AmbientKey(ambient: seq<Option<string>>): Key {
    if ambient == [] then ""
    else (if ambient[0].Some? then ambient[0].value else "") + AmbientKey(ambient[1..])
  }

  function OperatorCandidate(keys: KeyMaterial): Option<Key> {
    if keys.explicit.Some? && !Blank(keys.explicit.value) then keys.explicit else None
  }

  /** A non-blank explicit value that does not derive the ambient key. */
  function OperatorKey(keys: KeyMaterial): Option<Key> {
    var candidate := OperatorCandidate(keys);
    if candidate.Some? && candidate.value != AmbientKey(keys.ambient) then candidate else None
  }

  predicate OperatorKeyIsAmbient(keys: KeyMaterial) {
    OperatorCandidate(keys) == Some(AmbientKey(keys.ambient))
  }

  function ReadKeys(keys: KeyMaterial): seq<Key> {
    (if keys.explicit.Some? then [keys.explicit.value] else []) + [AmbientKey(keys.ambient)]
  }

  // ------------------------------------------------------------------
  // The file
  // ------------------------------------------------------------------

  const ENVELOPE_VERSION: nat := 1
  const CONFIG_KEY_ID := "nexus-config-v1"

  /** A payload that is not a configuration is `None`. */
  datatype File =
    | Missing
    | Unreadable
    | BlankText
    | Envelope(version: nat, keyId: string, key: Key, payload: Option<Config>)
    | Plain(config: Config)
    | Malformed

  function Sealed(config: Config, key: Key): File {
    Envelope(ENVELOPE_VERSION, CONFIG_KEY_ID, key, Some(config))
  }

  /** A configuration that opened, and the key that opened it (none for plaintext). */
  datatype Opened = Opened(config: Config, key: Option<Key>)

  datatype OpenError = IoError | Empty | Invalid | Unsupported | Undecryptable

  function OpenEnvelope(key: Key, payload: Option<Config>, tried: seq<Key>): Result<Opened, OpenError> {
    if tried == [] then Err(Undecryptable)
    else if tried[0] == key then
      if payload.Some? then Ok(Opened(payload.value, Some(tried[0]))) else Err(Invalid)
    else OpenEnvelope(key, payload, tried[1..])
  }

  /** Open an existing file. */
  function Open(file: File, keys: KeyMaterial): Result<Opened, OpenError>
    requires !file.Missing?
  {
    match file
    case Unreadable => Err(IoError)
    case BlankText => Err(Empty)
    case Envelope(version, keyId, key, payload) =>
      if version != ENVELOPE_VERSION || keyId != CONFIG_KEY_ID then Err(Unsupported)
      else OpenEnvelope(key, payload, ReadKeys(keys))
    case Plain(config) => Ok(Opened(config, None))
    case Malformed => Err(Invalid)
  }

  lemma {:induction false} OpenEnvelopeExactly(key: Key, payload: Option<Config>, tried: seq<Key>)
    ensures OpenEnvelope(key, payload, tried) ==
            if key !in tried then Err(Undecryptable)
            else if payload.None? then Err(Invalid)
            else Ok(Opened(payload.value, Some(key)))
  {
    if tried != [] && tried[0] != key {
      OpenEnvelopeExactly(key, payload, tried[1..]);
      assert key in tried <==> key in tried[1..];
    }
  }

  // ------------------------------------------------------------------
  // Saves
  // ------------------------------------------------------------------

  datatype Outcome = Written | RekeyedToOperatorKey | EncryptedLegacyPlaintext

  datatype Refusal = OperatorKeyRequired | AmbientOperatorKey | ExistingUnreadable

  datatype SaveError = Refused(why: Refusal) | Failed

  datatype Decision = Refuse(why: Refusal) | Write(key: Key, outcome: Outcome)

  function DecideOver(stored: Option<Opened>, keys: KeyMaterial, config: Config): Decision {
    var operator := OperatorKey(keys);
    if IntroducesCredentials(if stored.Some? then Some(stored.value.config) else None, config) then
      if operator.Some? then
        Write(operator.value,
              if stored.Some? && stored.value.key != operator then RekeyedToOperatorKey else Written)
      else if OperatorKeyIsAmbient(keys) then Refuse(AmbientOperatorKey)
      else Refuse(OperatorKeyRequired)
    else if stored.Some? && stored.value.key.Some? then Write(stored.value.key.value, Written)
    else if operator.Some? then Write(operator.value, if stored.Some? then RekeyedToOperatorKey else Written)
    else Write(AmbientKey(keys.ambient), if stored.Some? then EncryptedLegacyPlaintext else Written)
  }

  function Decide(file: File, keys: KeyMaterial, config: Config): Decision {
    if file.Missing? then DecideOver(None, keys, config)
    else if Open(file, keys).Err? then Refuse(ExistingUnreadable)
    else DecideOver(Some(Open(file, keys).value), keys, config)
  }

  /** What was stored, once it is known to open. */
  function StoredConfig(file: File, keys: KeyMaterial): Option<Config> {
    if file.Missing? || Open(file, keys).Err? then None else Some(Open(file, keys).value.config)
  }

  /** A save is let through iff the file is absent or opens, and new credentials have an operator key. */
  lemma WritesExactlyWhen(file: File, keys: KeyMaterial, config: Config)
    ensures Decide(file, keys, config).Write? <==>
              && (file.Missing? || Open(file, keys).Ok?)
              && (OperatorKey(keys).None? ==> Credentials(config) <= StoredCredentials(StoredConfig(file, keys)))
  {
    IntroducesExactly(StoredConfig(file, keys), config);
  }

  /** For an existing file, `Written` says exactly that the sealing key did not change. */
  lemma WrittenIffSameKey(file: File, keys: KeyMaterial, config: Config)
    requires !file.Missing? && Decide(file, keys, config).Write?
    ensures var decision, held := Decide(file, keys, config), Open(file, keys).value.key;
            && (decision.outcome.Written? <==> held == Some(decision.key))
            && (decision.outcome.RekeyedToOperatorKey? ==> OperatorKey(keys) == Some(decision.key))
            && (decision.outcome.EncryptedLegacyPlaintext? <==> file.Plain? && OperatorKey(keys).None?)
  {
    if file.Envelope? {
      OpenEnvelopeExactly(file.key, file.payload, ReadKeys(keys));
    }
  }

  /** The key a save chooses is one its own key material opens. */
  lemma ChosenKeyOpens(file: File, keys: KeyMaterial, config: Config)
    requires Decide(file, keys, config).Write?
    ensures Decide(file, keys, config).key in ReadKeys(keys)
  {
    if file.Envelope? {
      OpenEnvelopeExactly(file.key, file.payload, ReadKeys(keys));
    }
  }

  /** Round trip: what was saved is what the same key material loads. */
  lemma SaveThenOpen(file: File, keys: KeyMaterial, config: Config)
    requires Decide(file, keys, config).Write?
    ensures var key := Decide(file, keys, config).key;
            Open(Sealed(config, key), keys) == Ok(Opened(config, Some(key)))
  {
    var key := Decide(file, keys, config).key;
    ChosenKeyOpens(file, keys, config);
    OpenEnvelopeExactly(key, Some(config), ReadKeys(keys));
  }

  // ------------------------------------------------------------------
  // What every file of a run satisfies
  // ------------------------------------------------------------------

  /** The credentials in a file, whoever can open it. */
  function FileCredentials(file: File): set<Credential> {
    match file
    case Envelope(_, _, _, payload) => StoredCredentials(payload)
    case Plain(config) => Credentials(config)
    case _ => {}
  }

  /**
   A file of a run that began with `start`: that file, or an envelope under the
   ambient key that holds no credential `start` did not hold, or one under another
   key, which is not blank unless it sealed `start`.
   */
  ghost predicate Protected(start: File, file: File, ambient: Key) {
    file == start ||
    (&& file.Envelope? && file.version == ENVELOPE_VERSION && file.keyId == CONFIG_KEY_ID && file.payload.Some?
     && (if file.key == ambient then FileCredentials(file) <= FileCredentials(start)
         else !Blank(file.key) || (start.Envelope? && file.key == start.key)))
  }

  /** Once under an operator key, a file stays under one. */
  ghost predicate StaysKeyed(before: File, after: File, ambient: Key) {
    before.Envelope? && before.key != ambient ==> after.Envelope? && after.key != ambient
  }

  lemma SaveKeepsProtected(start: File, file: File, keys: KeyMaterial, config: Config)
    requires Protected(start, file, AmbientKey(keys.ambient)) && Decide(file, keys, config).Write?
    ensures Protected(start, Sealed(config, Decide(file, keys, config).key), AmbientKey(keys.ambient))
    ensures StaysKeyed(file, Sealed(config, Decide(file, keys, config).key), AmbientKey(keys.ambient))
  {
    hide AmbientKey, Blank;
    IntroducesExactly(StoredConfig(file, keys), config);
    if file.Envelope? {
      OpenEnvelopeExactly(file.key, file.payload, ReadKeys(keys));
    }
  }

  lemma DefaultHasNoCredentials()
    ensures Credentials(DEFAULT) == {}
  {
  }

  // ------------------------------------------------------------------
  // The store
  // ------------------------------------------------------------------

  class ConfigStore {
    var file: File

    constructor (file: File)
      ensures this.file == file
    {
      this.file := file;
    }

    /** Replace the file atomically, or leave it. */
    method WriteEnvelope(config: Config, key: Key) returns (ok: bool)
      modifies this
      ensures file == if ok then Sealed(config, key) else old(file)
    {
      ok := *;
      if ok {
        file := Sealed(config, key);
      }
    }

    /** Save a configuration; a refused or failed save changes nothing. */
    method Save(config: Config, keys: KeyMaterial) returns (r: Result<Outcome, SaveError>)
      modifies this
      ensures r.Err? ==> file == old(file)
      ensures var decision := Decide(old(file), keys, config);
              match decision {
                case Refuse(why) => r == Err(Refused(why))
                case Write(key, outcome) => r == Err(Failed) || (r == Ok(outcome) && file == Sealed(config, key))
              }
      ensures r.Ok? ==> Open(file, keys) == Ok(Opened(config, Some(file.key)))
    {
      var stored := None;
      if !file.Missing? {
        var held := Open(file, keys);
        if held.Err? {
          return Err(Refused(ExistingUnreadable));
        }
        stored := Some(held.value);
      }
      match DecideOver(stored, keys, config) {
        case Refuse(why) => return Err(Refused(why));
        case Write(key, outcome) =>
          SaveThenOpen(file, keys, config);
          var ok := WriteEnvelope(config, key);
          return if ok then Ok(outcome) else Err(Failed);
      }
    }

    /** Load the configuration; only a missing file is written, with the default. */
    method Load(keys: KeyMaterial) returns (r: Result<Config, OpenError>)
      modifies this
      ensures !old(file).Missing? ==>
                && file == old(file)
                && r == (match Open(file, keys) { case Ok(held) => Ok(held.config) case Err(why) => Err(why) })
      ensures old(file).Missing? ==>
                if r.Ok? then r.value == DEFAULT && file == Sealed(DEFAULT, Decide(Missing, keys, DEFAULT).key)
                else file.Missing? && r == Err(IoError)
    {
      if file.Missing? {
        DefaultHasNoCredentials();
        WritesExactlyWhen(file, keys, DEFAULT);
        var saved := Save(DEFAULT, keys);
        return if saved.Ok? then Ok(DEFAULT) else Err(IoError);
      }
      match Open(file, keys) {
        case Ok(held) => return Ok(held.config);
        case Err(why) => return Err(why);
      }
    }
  }

  /** One step of a run: NEXUS_CONFIG_KEY may be anything each time. */
  datatype Step = LoadStep(explicit: Option<string>) | SaveStep(explicit: Option<string>, config: Config)

  method Perform(store: ConfigStore, ghost start: File, ambient: seq<Option<string>>, step: Step)
    requires Protected(start, store.file, AmbientKey(ambient))
    modifies store
    ensures Protected(start, store.file, AmbientKey(ambient))
    ensures StaysKeyed(old(store.file), store.file, AmbientKey(ambient))
  {
    hide AmbientKey, Protected, StaysKeyed;
    var keys := KeyMaterial(step.explicit, ambient);
    Unchanged(store.file, AmbientKey(ambient));
    match step {
      case LoadStep(_) =>
        if store.file.Missing? {
          DefaultHasNoCredentials();
          WritesExactlyWhen(Missing, keys, DEFAULT);
          SaveKeepsProtected(start, Missing, keys, DEFAULT);
        }
        var loaded := store.Load(keys);
      case SaveStep(_, config) =>
        if Decide(store.file, keys, config).Write? {
          SaveKeepsProtected(start, store.file, keys, config);
        }
        var saved := store.Save(config, keys);
    }
  }

  lemma Unchanged(file: File, ambient: Key)
    ensures StaysKeyed(file, file, ambient)
  {
  }

  lemma StaysKeyedThrough(before: File, between: File, after: File, ambient: Key)
    requires StaysKeyed(before, between, ambient) && StaysKeyed(between, after, ambient)
    ensures StaysKeyed(before, after, ambient)
  {
  }

  /**
   Any run of loads and saves, with fixed ambient inputs and any file to begin
   with: none, a legacy plaintext, an envelope of either kind, or anything else.
   */
  method AnyRun(start: File, ambient: seq<Option<string>>, steps: seq<Step>) returns (files: seq<File>)
    ensures |files| == |steps| + 1 && files[0] == start
    ensures forall i :: 0 <= i < |files| ==> Protected(start, files[i], AmbientKey(ambient))
    ensures forall i, j :: 0 <= i <= j < |files| ==> StaysKeyed(files[i], files[j], AmbientKey(ambient))
  {
    hide Protected, StaysKeyed, AmbientKey;
    var store := new ConfigStore(start);
    files := [store.file];
    StartsProtected(start, AmbientKey(ambient));
    for n := 0 to |steps|
      invariant fresh(store) && |files| == n + 1 && files[0] == start && files[n] == store.file
      invariant forall i :: 0 <= i < |files| ==> Protected(start, files[i], AmbientKey(ambient))
      invariant forall i, j :: 0 <= i <= j < |files| ==> StaysKeyed(files[i], files[j], AmbientKey(ambient))
    {
      Perform(store, start, ambient, steps[n]);
      Unchanged(store.file, AmbientKey(ambient));
      forall i | 0 <= i <= n ensures StaysKeyed(files[i], store.file, AmbientKey(ambient)) {
        StaysKeyedThrough(files[i], files[n], store.file, AmbientKey(ambient));
      }
      files := files + [store.file];
    }
  }

  lemma StartsProtected(start: File, ambient: Key)
    ensures Protected(start, start, ambient) && StaysKeyed(start, start, ambient)
  {
  }
}

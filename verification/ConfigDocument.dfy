/** The configuration document as a value (configstore/store.go), and what
    encryption at rest, masking and import mean for it. */
module ConfigDocument {
  import opened Common

  /** The fields that no operation here treats specially. */
  datatype Settings = Settings(
    icinga2Host: Text, icinga2User: Text, hostAutoCreate: bool, tlsSkipVerify: bool, conflictPolicy: Text, force: bool,
    serviceNameMode: Text, historyFile: Text, historyMaxEntries: int, cacheTTLMinutes: int, pruneAfterDays: int,
    pruneDryRun: Option<bool>, logLevel: Text, logFormat: Text, rateMutate: int, rateStatus: int, rateQueue: int)

  datatype Profile = Profile(
    id: Text, source: Text, hostName: Text, hostDisplay: Text, hostAddress: Text,
    users: seq<Text>, groups: seq<Text>, serviceStates: seq<Text>, hostStates: seq<Text>)

  datatype Target = Target(profile: Profile, apiKeys: seq<Text>)

  datatype User = User(username: Text, password: Text, role: Text)

  datatype Config = Config(version: int, updatedAt: int, createdAt: int, settings: Settings, icingaPass: Text,
                           targets: seq<Target>, users: seq<User>)

  const NO_SETTINGS := Settings([], [], false, false, [], false, [], [], 0, 0, 0, None, [], [], 0, 0, 0)

  const ZERO: Config := Config(0, 0, 0, NO_SETTINGS, [], [], [])

  // ---------------------------------------------------------------- encryption

  const ENC: Text := [0x65, 0x6E, 0x63, 0x3A]  // "enc:"

  /** AES-GCM under the store's key: `seal` takes a nonce and a plaintext to the
      hexadecimal ciphertext, `open` fails on anything that was not sealed. */
  datatype Cipher = Cipher(seal: (nat, Text) -> Text, open: Text -> Option<Text>) {
    ghost predicate Inverse() {
      forall n: nat, p: Text :: open(seal(n, p)) == Some(p)
    }

    function Encrypt(nonce: nat, plain: Text): (s: Text)
      ensures IsSealed(s)
    {
      ENC + seal(nonce, plain)
    }

    /** A text without the prefix is taken as it is. */
    function Decrypt(s: Text): Option<Text> {
      if IsSealed(s) then open(s[4..]) else Some(s)
    }
  }

  predicate IsSealed(s: Text) {
    |s| >= 4 && s[..4] == ENC
  }

  lemma DecryptEncrypt(c: Cipher, nonce: nat, plain: Text)
    requires c.Inverse()
    ensures c.Decrypt(c.Encrypt(nonce, plain)) == Some(plain)
  {
    assert (ENC + c.seal(nonce, plain))[4..] == c.seal(nonce, plain);
  }

  /** An empty secret is stored as it is. */
  function DecryptSecret(c: Cipher, s: Text): Option<Text> {
    if s == [] then Some([]) else c.Decrypt(s)
  }

  predicate KeysDecrypt(c: Cipher, keys: seq<Text>, plain: seq<Text>) {
    |keys| == |plain| && forall j :: 0 <= j < |keys| ==> c.Decrypt(keys[j]) == Some(plain[j])
  }

  predicate TargetsDecrypt(c: Cipher, stored: seq<Target>, plain: seq<Target>) {
    && |stored| == |plain|
    && forall i :: 0 <= i < |stored| ==>
        stored[i].profile == plain[i].profile && KeysDecrypt(c, stored[i].apiKeys, plain[i].apiKeys)
  }

  predicate UsersDecrypt(c: Cipher, stored: seq<User>, plain: seq<User>) {
    && |stored| == |plain|
    && forall i :: 0 <= i < |stored| ==> && stored[i].username == plain[i].username && stored[i].role == plain[i].role
                                         && DecryptSecret(c, stored[i].password) == Some(plain[i].password)
  }

  /** `plain` is what the stored document means. */
  predicate Decrypts(c: Cipher, stored: Config, plain: Config) {
    && stored.version == plain.version && stored.updatedAt == plain.updatedAt && stored.createdAt == plain.createdAt
    && stored.settings == plain.settings && DecryptSecret(c, stored.icingaPass) == Some(plain.icingaPass)
    && TargetsDecrypt(c, stored.targets, plain.targets) && UsersDecrypt(c, stored.users, plain.users)
  }

  /** Every secret of the document can be decrypted. */
  predicate Readable(c: Cipher, stored: Config) {
    && DecryptSecret(c, stored.icingaPass).Some?
    && (forall i, j :: 0 <= i < |stored.targets| && 0 <= j < |stored.targets[i].apiKeys| ==>
        c.Decrypt(stored.targets[i].apiKeys[j]).Some?)
    && (forall i :: 0 <= i < |stored.users| ==> DecryptSecret(c, stored.users[i].password).Some?)
  }

  /** A document means one configuration at most. */
  lemma DecryptsUnique(c: Cipher, stored: Config, a: Config, b: Config)
    requires Decrypts(c, stored, a) && Decrypts(c, stored, b)
    ensures a == b
  {
    forall i | 0 <= i < |a.targets|
      ensures a.targets[i] == b.targets[i]
    {
      assert KeysDecrypt(c, stored.targets[i].apiKeys, a.targets[i].apiKeys);
      assert KeysDecrypt(c, stored.targets[i].apiKeys, b.targets[i].apiKeys);
      assert a.targets[i].apiKeys == b.targets[i].apiKeys;
    }
    assert a.targets == b.targets;
    assert a.users == b.users;
  }

  /** No secret is stored in the clear. */
  predicate AtRest(stored: Config) {
    && (stored.icingaPass == [] || IsSealed(stored.icingaPass))
    && (forall i, j :: 0 <= i < |stored.targets| && 0 <= j < |stored.targets[i].apiKeys| ==>
        IsSealed(stored.targets[i].apiKeys[j]))
    && (forall i :: 0 <= i < |stored.users| ==> stored.users[i].password == [] || IsSealed(stored.users[i].password))
  }

  // ---------------------------------------------------------------- masking and import

  const STARS: Text := [0x2A, 0x2A, 0x2A]  // "***"

  function MaskedKeys(keys: seq<Text>): seq<Text> {
    seq(|keys|, _ => STARS)
  }

  function MaskedTargets(ts: seq<Target>): seq<Target> {
    seq(|ts|, i requires 0 <= i < |ts| => ts[i].(apiKeys := MaskedKeys(ts[i].apiKeys)))
  }

  /** The Icinga2 password and all API keys become "***". */
  function Masked(c: Config): Config {
    c.(icingaPass := if c.icingaPass == [] then [] else STARS, targets := MaskedTargets(c.targets))
  }

  /** Nothing secret can be read. */
  predicate Hides(c: Config) {
    && (c.icingaPass == [] || c.icingaPass == STARS)
    && forall i, j :: 0 <= i < |c.targets| && 0 <= j < |c.targets[i].apiKeys| ==> c.targets[i].apiKeys[j] == STARS
  }

  /** Equal up to the texts of the secrets: whether there is a password, and how many
      keys a target has, is not secret. */
  predicate SameButSecrets(a: Config, b: Config) {
    && a == b.(icingaPass := a.icingaPass, targets := a.targets) && (a.icingaPass == [] <==> b.icingaPass == [])
    && |a.targets| == |b.targets|
    && forall i :: 0 <= i < |a.targets| ==>
         a.targets[i].profile == b.targets[i].profile && |a.targets[i].apiKeys| == |b.targets[i].apiKeys|
  }

  /** The masked form shows no secret, and shows everything else. */
  lemma MaskedHides(c: Config)
    ensures Hides(Masked(c)) && SameButSecrets(Masked(c), c)
  {
  }

  /** There is only one such form. */
  lemma HiddenIsUnique(a: Config, b: Config)
    requires Hides(a) && Hides(b) && SameButSecrets(a, b)
    ensures a == b
  {
    forall i | 0 <= i < |a.targets|
      ensures a.targets[i] == b.targets[i]
    {
      assert a.targets[i].apiKeys == b.targets[i].apiKeys;
    }
    assert a.targets == b.targets;
  }

  lemma SameButSecretsTransitive(a: Config, b: Config, c: Config)
    requires SameButSecrets(a, b) && SameButSecrets(b, c)
    ensures SameButSecrets(a, c) && SameButSecrets(b, a)
  {
  }

  /** Masking tells two configurations apart if and only if they differ in something
      other than the texts of their secrets. */
  lemma MaskedAlikeIff(a: Config, b: Config)
    ensures Masked(a) == Masked(b) <==> SameButSecrets(a, b)
  {
    MaskedHides(a);
    MaskedHides(b);
    if SameButSecrets(a, b) {
      SameButSecretsTransitive(Masked(a), a, b);
      SameButSecretsTransitive(Masked(b), b, b);
      SameButSecretsTransitive(Masked(a), b, Masked(b));
      HiddenIsUnique(Masked(a), Masked(b));
    } else if Masked(a) == Masked(b) {
      SameButSecretsTransitive(Masked(a), a, a);
      SameButSecretsTransitive(a, Masked(a), b);
    }
  }

  /** Key j of the last target with that ID that has one, or `otherwise`. */
  function Restore(ts: seq<Target>, id: Text, j: nat, otherwise: Text): Text {
    if ts == [] then otherwise
    else
      var last := ts[|ts| - 1];
      if last.profile.id == id && j < |last.apiKeys| then last.apiKeys[j] else Restore(ts[..|ts| - 1], id, j, otherwise)
  }

  function MergedKey(current: seq<Target>, id: Text, j: nat, key: Text): Text {
    if key == STARS then Restore(current, id, j, key) else key
  }

  function MergedKeys(current: seq<Target>, id: Text, keys: seq<Text>): seq<Text> {
    seq(|keys|, j requires 0 <= j < |keys| => MergedKey(current, id, j, keys[j]))
  }

  function MergedTargets(current: seq<Target>, ts: seq<Target>): seq<Target> {
    seq(|ts|, i requires 0 <= i < |ts| => ts[i].(apiKeys := MergedKeys(current, ts[i].profile.id, ts[i].apiKeys)))
  }

  /** An import takes masked secrets from the current configuration. */
  function Merged(current: Config, imported: Config): Config {
    imported.(icingaPass := if imported.icingaPass == STARS || imported.icingaPass == [] then current.icingaPass
              else imported.icingaPass,
              targets := MergedTargets(current.targets, imported.targets))
  }

  predicate Named(ts: seq<Target>) {
    forall i :: 0 <= i < |ts| ==> ts[i].profile.hostName != []
  }

  /** An import needs at least one target, and a host name for each. */
  predicate Acceptable(imported: Config) {
    |imported.targets| > 0 && Named(imported.targets)
  }

  lemma MaskedAcceptable(c: Config)
    ensures Acceptable(Masked(c)) <==> Acceptable(c)
  {
    assert forall i :: 0 <= i < |c.targets| ==> Masked(c).targets[i].profile == c.targets[i].profile;
  }

  /** Targets that share an ID agree on the keys at the positions both have. */
  predicate DuplicatesAgree(ts: seq<Target>) {
    forall a, b, j ::
      (&& 0 <= a < |ts| && 0 <= b < |ts| && ts[a].profile.id == ts[b].profile.id
       && 0 <= j < |ts[a].apiKeys| && j < |ts[b].apiKeys|) ==> ts[a].apiKeys[j] == ts[b].apiKeys[j]
  }

  /** Restore finds the key of some target with the ID, if there is one. */
  lemma {:induction false} RestoreFinds(ts: seq<Target>, id: Text, j: nat, otherwise: Text, a: nat) returns (b: nat)
    requires a < |ts| && ts[a].profile.id == id && j < |ts[a].apiKeys|
    ensures b < |ts| && ts[b].profile.id == id && j < |ts[b].apiKeys|
    ensures Restore(ts, id, j, otherwise) == ts[b].apiKeys[j]
    decreases |ts|
  {
    var n := |ts| - 1;
    if ts[n].profile.id == id && j < |ts[n].apiKeys| {
      b := n;
    } else {
      b := RestoreFinds(ts[..n], id, j, otherwise, a);
    }
  }

  /** Importing the masked form of a configuration over that configuration gives
      it back, if and only if targets sharing an ID agree on their common keys
      (in particular, if all target IDs are distinct). */
  lemma MaskImportIff(c: Config)
    ensures Merged(c, Masked(c)) == c <==> DuplicatesAgree(c.targets)
  {
    var ts := c.targets;
    var back := Merged(c, Masked(c));
    assert forall i :: 0 <= i < |ts| ==>
        back.targets[i].profile == ts[i].profile && |back.targets[i].apiKeys| == |ts[i].apiKeys|;
    assert forall i, j :: 0 <= i < |ts| && 0 <= j < |ts[i].apiKeys| ==>
                            back.targets[i].apiKeys[j] == Restore(ts, ts[i].profile.id, j, STARS);
    if DuplicatesAgree(ts) {
      forall i | 0 <= i < |ts|
        ensures back.targets[i] == ts[i]
      {
        forall j | 0 <= j < |ts[i].apiKeys|
          ensures back.targets[i].apiKeys[j] == ts[i].apiKeys[j]
        {
          var b := RestoreFinds(ts, ts[i].profile.id, j, STARS, i);
        }
        assert back.targets[i].apiKeys == ts[i].apiKeys;
      }
      assert back.targets == ts;
    } else {
      var a, b, j :| 0 <= a < |ts| && 0 <= b < |ts| && ts[a].profile.id == ts[b].profile.id
                     && 0 <= j < |ts[a].apiKeys| && j < |ts[b].apiKeys| && ts[a].apiKeys[j] != ts[b].apiKeys[j];
      assert back.targets[a].apiKeys[j] == back.targets[b].apiKeys[j];
    }
  }

  /** An import takes every new secret and everything that is not secret as it is. */
  lemma ImportTakesWhatIsNew(current: Config, imported: Config)
    ensures var m := Merged(current, imported);
            && m == imported.(icingaPass := m.icingaPass, targets := m.targets) && |m.targets| == |imported.targets|
            && (imported.icingaPass != [] && imported.icingaPass != STARS ==> m.icingaPass == imported.icingaPass)
            && (imported.icingaPass == [] || imported.icingaPass == STARS ==> m.icingaPass == current.icingaPass)
            && forall i :: 0 <= i < |m.targets| ==>
                 && m.targets[i].profile == imported.targets[i].profile
                 && |m.targets[i].apiKeys| == |imported.targets[i].apiKeys|
                 && forall j :: 0 <= j < |m.targets[i].apiKeys| && imported.targets[i].apiKeys[j] != STARS ==>
                      m.targets[i].apiKeys[j] == imported.targets[i].apiKeys[j]
  {
  }

  /** Target b is the last one with this ID that has a key j. */
  predicate LastWithKey(ts: seq<Target>, id: Text, j: nat, b: int) {
    && 0 <= b < |ts| && ts[b].profile.id == id && j < |ts[b].apiKeys|
    && forall a :: b < a < |ts| ==> ts[a].profile.id != id || j >= |ts[a].apiKeys|
  }

  lemma {:induction false} RestoreIsLast(ts: seq<Target>, id: Text, j: nat, otherwise: Text)
    ensures forall b :: LastWithKey(ts, id, j, b) ==> Restore(ts, id, j, otherwise) == ts[b].apiKeys[j]
    ensures (forall b :: !LastWithKey(ts, id, j, b)) ==> Restore(ts, id, j, otherwise) == otherwise
    decreases |ts|
  {
    if ts != [] {
      var n := |ts| - 1;
      RestoreIsLast(ts[..n], id, j, otherwise);
      assert LastWithKey(ts, id, j, n) <==> ts[n].profile.id == id && j < |ts[n].apiKeys|;
      assert forall b :: 0 <= b < n && !LastWithKey(ts, id, j, n) ==>
          (LastWithKey(ts, id, j, b) <==> LastWithKey(ts[..n], id, j, b));
    }
  }

  /** An import replaces a masked key by the key in its place in the last current
      target with the same ID; without one it stays masked. */
  lemma ImportRestoresWhatIsMasked(current: Config, imported: Config, i: nat, j: nat)
    requires i < |imported.targets| && j < |imported.targets[i].apiKeys| && imported.targets[i].apiKeys[j] == STARS
    ensures var key := Merged(current, imported).targets[i].apiKeys[j];
            var id := imported.targets[i].profile.id;
            && (forall b :: LastWithKey(current.targets, id, j, b) ==> key == current.targets[b].apiKeys[j])
            && ((forall b :: !LastWithKey(current.targets, id, j, b)) ==> key == STARS)
  {
    RestoreIsLast(current.targets, imported.targets[i].profile.id, j, STARS);
  }
}

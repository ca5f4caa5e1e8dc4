/** The configuration store with its slices (configstore/store.go) and the
    masking and import of handler/settings.go. Slices are arrays, so copying a
    struct shares them; the deep copies are what keeps the stored configuration
    from being encrypted or masked in place. */
module ConfigStore {
  import opened Common
  import opened ConfigDocument

  datatype TargetRef = TargetRef(profile: Profile, apiKeys: array<Text>)

  datatype ConfigRef = ConfigRef(
    version: int, updatedAt: int, createdAt: int, settings: Settings, icingaPass: Text,
    targets: array<TargetRef>, users: array<User>)

  // ---------------------------------------------------------------- reading the heap

  ghost function KeyArrays(a: array<TargetRef>): set<object>
    reads a
  {
    set i | 0 <= i < a.Length :: a[i].apiKeys as object
  }

  ghost function ReadTargets(a: array<TargetRef>): seq<Target>
    reads a, KeyArrays(a)
  {
    seq(a.Length, i requires 0 <= i < a.Length reads a, KeyArrays(a) => Target(a[i].profile, a[i].apiKeys[..]))
  }

  /** The document that a reference stands for. */
  ghost function Read(c: ConfigRef): Config
    reads c.targets, KeyArrays(c.targets), c.users
  {
    Config(c.version, c.updatedAt, c.createdAt, c.settings, c.icingaPass, ReadTargets(c.targets), c.users[..])
  }

  /** Everything a reference reaches. */
  ghost function Reach(c: ConfigRef): set<object>
    reads c.targets
  {
    {c.targets, c.users} + KeyArrays(c.targets)
  }

  /** No two targets share a key slice, and the arrays are not confused. */
  ghost predicate Separate(a: array<TargetRef>)
    reads a
  {
    forall i, j :: 0 <= i < j < a.Length ==> a[i].apiKeys != a[j].apiKeys
  }

  // ---------------------------------------------------------------- deep copies

  method CopyKeys(keys: array<Text>) returns (copy: array<Text>)
    ensures fresh(copy) && copy[..] == keys[..]
  {
    copy := new Text[keys.Length](i requires 0 <= i < keys.Length reads keys => keys[i]);
  }

  method CopyTargets(src: array<TargetRef>) returns (dst: array<TargetRef>)
    ensures fresh(dst) && fresh(KeyArrays(dst)) && Separate(dst)
    ensures ReadTargets(dst) == ReadTargets(src)
  {
    var none := new Text[0];
    dst := new TargetRef[src.Length](i requires 0 <= i < src.Length reads src => src[i].(apiKeys := none));
    var i := 0;
    while i < src.Length
      invariant 0 <= i <= src.Length == dst.Length && fresh(dst)
      invariant forall k :: 0 <= k < i ==> fresh(dst[k].apiKeys) && dst[k].profile == src[k].profile
      invariant forall k :: 0 <= k < i ==> dst[k].apiKeys[..] == src[k].apiKeys[..]
      invariant forall k, l :: 0 <= k < l < i ==> dst[k].apiKeys != dst[l].apiKeys
      modifies dst
    {
      var keys := CopyKeys(src[i].apiKeys);
      dst[i] := src[i].(apiKeys := keys);
      i := i + 1;
    }
  }

  method CopyUsers(src: array<User>) returns (dst: array<User>)
    ensures fresh(dst) && dst[..] == src[..]
  {
    dst := new User[src.Length](i requires 0 <= i < src.Length reads src => src[i]);
  }

  /** Get: a copy that shares nothing with the original. */
  method DeepCopy(c: ConfigRef) returns (copy: ConfigRef)
    ensures fresh(Reach(copy)) && Separate(copy.targets) && Read(copy) == Read(c)
  {
    var targets := CopyTargets(c.targets);
    var users := CopyUsers(c.users);
    copy := c.(targets := targets, users := users);
  }

  // ---------------------------------------------------------------- encryption in place

  method EncryptKeys(c: Cipher, keys: array<Text>, nonce: nat) returns (next: nat)
    requires c.Inverse()
    modifies keys
    ensures KeysDecrypt(c, keys[..], old(keys[..]))
    ensures forall j :: 0 <= j < keys.Length ==> IsSealed(keys[j])
  {
    next := nonce;
    var j := 0;
    while j < keys.Length
      invariant 0 <= j <= keys.Length
      invariant forall k :: 0 <= k < j ==> IsSealed(keys[k]) && c.Decrypt(keys[k]) == Some(old(keys[k]))
      invariant forall k :: j <= k < keys.Length ==> keys[k] == old(keys[k])
    {
      DecryptEncrypt(c, next, keys[j]);
      keys[j] := c.Encrypt(next, keys[j]);
      next := next + 1;
      j := j + 1;
    }
  }

  ghost predicate KeysSealed(keys: array<Text>)
    reads keys
  {
    forall j :: 0 <= j < keys.Length ==> IsSealed(keys[j])
  }

  method EncryptTargets(c: Cipher, a: array<TargetRef>, nonce: nat) returns (next: nat)
    requires c.Inverse() && Separate(a)
    modifies KeyArrays(a)
    ensures TargetsDecrypt(c, ReadTargets(a), old(ReadTargets(a)))
    ensures forall i :: 0 <= i < a.Length ==> KeysSealed(a[i].apiKeys)
  {
    next := nonce;
    var i := 0;
    while i < a.Length
      invariant 0 <= i <= a.Length
      invariant forall k :: 0 <= k < i ==>
                KeysSealed(a[k].apiKeys) && KeysDecrypt(c, a[k].apiKeys[..], old(a[k].apiKeys[..]))
      invariant forall k :: i <= k < a.Length ==> a[k].apiKeys[..] == old(a[k].apiKeys[..])
    {
      next := EncryptKeys(c, a[i].apiKeys, next);
      i := i + 1;
    }
  }

  method EncryptUsers(c: Cipher, users: array<User>, nonce: nat) returns (next: nat)
    requires c.Inverse()
    modifies users
    ensures UsersDecrypt(c, users[..], old(users[..]))
    ensures forall i :: 0 <= i < users.Length ==> users[i].password == [] || IsSealed(users[i].password)
  {
    next := nonce;
    var i := 0;
    while i < users.Length
      invariant 0 <= i <= users.Length
      invariant forall k :: 0 <= k < i ==> users[k].password == [] || IsSealed(users[k].password)
      invariant UsersDecrypt(c, users[..i], old(users[..])[..i])
      invariant forall k :: i <= k < users.Length ==> users[k] == old(users[k])
    {
      if users[i].password != [] {
        DecryptEncrypt(c, next, users[i].password);
        users[i] := users[i].(password := c.Encrypt(next, users[i].password));
        next := next + 1;
      }
      i := i + 1;
    }
    assert users[..i] == users[..] && old(users[..])[..i] == old(users[..]);
  }

  // ---------------------------------------------------------------- decryption in place

  method DecryptKeysInPlace(c: Cipher, keys: array<Text>) returns (ok: bool)
    modifies keys
    ensures ok <==> forall j :: 0 <= j < keys.Length ==> c.Decrypt(old(keys[j])).Some?
    ensures ok ==> KeysDecrypt(c, old(keys[..]), keys[..])
  {
    var j := 0;
    while j < keys.Length
      invariant 0 <= j <= keys.Length
      invariant forall k :: 0 <= k < j ==> c.Decrypt(old(keys[k])) == Some(keys[k])
      invariant forall k :: j <= k < keys.Length ==> keys[k] == old(keys[k])
    {
      var d := c.Decrypt(keys[j]);
      if d.None? {
        return false;
      }
      keys[j] := d.value;
      j := j + 1;
    }
    return true;
  }

  predicate KeysReadable(c: Cipher, keys: seq<Text>) {
    forall j :: 0 <= j < |keys| ==> c.Decrypt(keys[j]).Some?
  }

  method DecryptTargets(c: Cipher, a: array<TargetRef>) returns (ok: bool)
    requires Separate(a)
    modifies KeyArrays(a)
    ensures ok <==> forall i :: 0 <= i < a.Length ==> KeysReadable(c, old(a[i].apiKeys[..]))
    ensures ok ==> TargetsDecrypt(c, old(ReadTargets(a)), ReadTargets(a))
  {
    var i := 0;
    while i < a.Length
      invariant 0 <= i <= a.Length
      invariant forall k :: 0 <= k < i ==> KeysReadable(c, old(a[k].apiKeys[..]))
      invariant forall k :: 0 <= k < i ==> KeysDecrypt(c, old(a[k].apiKeys[..]), a[k].apiKeys[..])
      invariant forall k :: i <= k < a.Length ==> a[k].apiKeys[..] == old(a[k].apiKeys[..])
    {
      ghost var stored := a[i].apiKeys[..];
      ok := DecryptKeysInPlace(c, a[i].apiKeys);
      assert ok <==> KeysReadable(c, stored);
      if !ok {
        return false;
      }
      i := i + 1;
    }
    return true;
  }

  method DecryptUsers(c: Cipher, users: array<User>) returns (ok: bool)
    modifies users
    ensures ok <==> forall i :: 0 <= i < users.Length ==> DecryptSecret(c, old(users[i].password)).Some?
    ensures ok ==> UsersDecrypt(c, old(users[..]), users[..])
  {
    var i := 0;
    while i < users.Length
      invariant 0 <= i <= users.Length
      invariant UsersDecrypt(c, old(users[..])[..i], users[..i])
      invariant forall k :: i <= k < users.Length ==> users[k] == old(users[k])
    {
      if users[i].password != [] {
        var d := c.Decrypt(users[i].password);
        if d.None? {
          return false;
        }
        users[i] := users[i].(password := d.value);
      }
      i := i + 1;
    }
    assert users[..i] == users[..] && old(users[..])[..i] == old(users[..]);
    return true;
  }

  // ---------------------------------------------------------------- whole documents in place

  /** Encrypt all secrets of a configuration that nobody else refers to. */
  method EncryptConfig(c: Cipher, sc: ConfigRef, nonce: nat) returns (e: ConfigRef)
    requires c.Inverse() && Separate(sc.targets)
    modifies KeyArrays(sc.targets), sc.users
    ensures e.targets == sc.targets && e.users == sc.users
    ensures Decrypts(c, Read(e), old(Read(sc))) && AtRest(Read(e))
  {
    e := sc;
    var next := nonce;
    if sc.icingaPass != [] {
      DecryptEncrypt(c, next, sc.icingaPass);
      e := sc.(icingaPass := c.Encrypt(next, sc.icingaPass));
      next := next + 1;
    }
    next := EncryptTargets(c, sc.targets, next);
    next := EncryptUsers(c, sc.users, next);
    assert forall i :: 0 <= i < sc.targets.Length ==> KeysSealed(sc.targets[i].apiKeys);
  }

  /** Decrypt all secrets, or report that one of them cannot be. */
  method DecryptConfig(c: Cipher, sc: ConfigRef) returns (ok: bool, d: ConfigRef)
    requires Separate(sc.targets)
    modifies KeyArrays(sc.targets), sc.users
    ensures d.targets == sc.targets && d.users == sc.users
    ensures ok <==> Readable(c, old(Read(sc)))
    ensures ok ==> Decrypts(c, old(Read(sc)), Read(d))
  {
    d := sc;
    ghost var stored := Read(sc);
    assert forall i :: 0 <= i < sc.targets.Length ==> stored.targets[i].apiKeys == sc.targets[i].apiKeys[..];
    if sc.icingaPass != [] {
      var p := c.Decrypt(sc.icingaPass);
      if p.None? {
        return false, d;
      }
      d := sc.(icingaPass := p.value);
    }
    ok := DecryptTargets(c, sc.targets);
    assert ok <==> forall i :: 0 <= i < |stored.targets| ==> KeysReadable(c, stored.targets[i].apiKeys);
    if !ok {
      return false, d;
    }
    ok := DecryptUsers(c, sc.users);
  }

  // ---------------------------------------------------------------- the file

  /** json.Marshal: write the document out. */
  method Marshal(c: ConfigRef) returns (doc: Config)
    ensures doc == Read(c)
  {
    var ts: seq<Target> := [];
    var i := 0;
    while i < c.targets.Length
      invariant 0 <= i <= c.targets.Length && ts == ReadTargets(c.targets)[..i]
    {
      ts := ts + [Target(c.targets[i].profile, c.targets[i].apiKeys[..])];
      i := i + 1;
    }
    doc := Config(c.version, c.updatedAt, c.createdAt, c.settings, c.icingaPass, ts, c.users[..]);
  }

  /** json.Unmarshal: new slices throughout. */
  method Unmarshal(doc: Config) returns (c: ConfigRef)
    ensures fresh(Reach(c)) && Separate(c.targets) && Read(c) == doc
  {
    var none := new Text[0];
    var targets := new TargetRef[|doc.targets|](i requires 0 <= i < |doc.targets| =>
                                                TargetRef(doc.targets[i].profile, none));
    var i := 0;
    while i < targets.Length
      invariant 0 <= i <= targets.Length == |doc.targets| && fresh(targets)
      invariant forall k :: 0 <= k < i ==>
                fresh(targets[k].apiKeys) && Target(targets[k].profile, targets[k].apiKeys[..]) == doc.targets[k]
      invariant forall k, l :: 0 <= k < l < i ==> targets[k].apiKeys != targets[l].apiKeys
      modifies targets
    {
      var src := doc.targets[i].apiKeys;
      var keys := new Text[|src|](j requires 0 <= j < |src| => src[j]);
      assert keys[..] == src;
      targets[i] := TargetRef(doc.targets[i].profile, keys);
      i := i + 1;
    }
    var users := new User[|doc.users|](j requires 0 <= j < |doc.users| => doc.users[j]);
    assert users[..] == doc.users;
    c := ConfigRef(doc.version, doc.updatedAt, doc.createdAt, doc.settings, doc.icingaPass, targets, users);
    assert ReadTargets(targets) == doc.targets;
  }

  // ---------------------------------------------------------------- masking and merging in place

  method MaskConfig(sc: ConfigRef) returns (m: ConfigRef)
    modifies KeyArrays(sc.targets)
    ensures m.targets == sc.targets && m.users == sc.users && Read(m) == Masked(old(Read(sc)))
    ensures Hides(Read(m)) && SameButSecrets(Read(m), old(Read(sc)))
  {
    MaskedHides(Read(sc));
    m := if sc.icingaPass != [] then sc.(icingaPass := STARS) else sc;
    var i := 0;
    while i < sc.targets.Length
      invariant 0 <= i <= sc.targets.Length
      invariant forall k, j :: 0 <= k < i && 0 <= j < sc.targets[k].apiKeys.Length ==> sc.targets[k].apiKeys[j] == STARS
    {
      MaskKeys(sc.targets[i].apiKeys);
      i := i + 1;
    }
    assert forall k :: 0 <= k < sc.targets.Length ==>
        sc.targets[k].apiKeys[..] == MaskedKeys(old(sc.targets[k].apiKeys[..]));
  }

  method MaskKeys(keys: array<Text>)
    modifies keys
    ensures keys[..] == MaskedKeys(old(keys[..]))
  {
    var j := 0;
    while j < keys.Length
      invariant 0 <= j <= keys.Length && forall k :: 0 <= k < j ==> keys[k] == STARS
    {
      keys[j] := STARS;
      j := j + 1;
    }
  }

  /** The innermost loop of the import: every matching target overwrites the key. */
  method RestoreKey(current: array<TargetRef>, id: Text, j: nat, key: Text) returns (r: Text)
    ensures r == Restore(ReadTargets(current), id, j, key)
  {
    r := key;
    var i := 0;
    ghost var ts := ReadTargets(current);
    while i < current.Length
      invariant 0 <= i <= current.Length && r == Restore(ts[..i], id, j, key)
    {
      assert ts[..i + 1][..i] == ts[..i];
      if current[i].profile.id == id && j < current[i].apiKeys.Length {
        r := current[i].apiKeys[j];
      }
      i := i + 1;
    }
    assert ts[..i] == ts;
  }

  method MergeKeys(current: array<TargetRef>, id: Text, keys: array<Text>)
    requires keys !in KeyArrays(current)
    modifies keys
    ensures keys[..] == MergedKeys(ReadTargets(current), id, old(keys[..]))
  {
    var j := 0;
    while j < keys.Length
      invariant 0 <= j <= keys.Length && ReadTargets(current) == old(ReadTargets(current))
      invariant forall k :: 0 <= k < j ==> keys[k] == MergedKey(ReadTargets(current), id, k, old(keys[k]))
      invariant forall k :: j <= k < keys.Length ==> keys[k] == old(keys[k])
    {
      if keys[j] == STARS {
        keys[j] := RestoreKey(current, id, j, keys[j]);
      }
      j := j + 1;
    }
  }

  method MergeTargets(current: array<TargetRef>, a: array<TargetRef>)
    requires Separate(a) && KeyArrays(a) !! KeyArrays(current)
    modifies KeyArrays(a)
    ensures ReadTargets(a) == MergedTargets(old(ReadTargets(current)), old(ReadTargets(a)))
  {
    ghost var cur := ReadTargets(current);
    var i := 0;
    while i < a.Length
      invariant 0 <= i <= a.Length && ReadTargets(current) == cur
      invariant forall k :: 0 <= k < i ==> a[k].apiKeys[..] == MergedKeys(cur, a[k].profile.id, old(a[k].apiKeys[..]))
      invariant forall k :: i <= k < a.Length ==> a[k].apiKeys[..] == old(a[k].apiKeys[..])
    {
      MergeKeys(current, a[i].profile.id, a[i].apiKeys);
      i := i + 1;
    }
  }

  method MergeConfig(cur: ConfigRef, imported: ConfigRef) returns (merged: ConfigRef)
    requires Separate(imported.targets) && KeyArrays(imported.targets) !! KeyArrays(cur.targets)
    modifies KeyArrays(imported.targets)
    ensures merged.targets == imported.targets && merged.users == imported.users
    ensures Read(merged) == Merged(old(Read(cur)), old(Read(imported)))
  {
    merged := if imported.icingaPass == STARS || imported.icingaPass == []
              then imported.(icingaPass := cur.icingaPass) else imported;
    MergeTargets(cur.targets, imported.targets);
  }

  method HostNamesPresent(a: array<TargetRef>) returns (ok: bool)
    ensures ok <==> Named(ReadTargets(a))
  {
    var i := 0;
    while i < a.Length
      invariant 0 <= i <= a.Length
      invariant forall k :: 0 <= k < i ==> a[k].profile.hostName != []
    {
      assert ReadTargets(a)[i].profile == a[i].profile;
      if a[i].profile.hostName == [] {
        return false;
      }
      i := i + 1;
    }
    return true;
  }

  datatype ImportResult = Imported | MissingVersion | NoTargets | MissingHostName

  // ---------------------------------------------------------------- the store

  class Store {
    const cipher: Cipher
    var current: Option<ConfigRef>
    var file: Option<Config>

    constructor (cipher: Cipher, file: Option<Config>)
      ensures this.cipher == cipher && current == None && this.file == file
    {
      this.cipher, current, this.file := cipher, None, file;
    }

    /** The configuration in memory; before the first Load or Update, none. */
    ghost function Value(): Config
      reads this, if current.Some? then Reach(current.value) else {}
    {
      if current.Some? then Read(current.value) else ZERO
    }

    /** What is on disk afterwards decrypts to the current configuration with a
        new UpdatedAt, holds no secret in the clear, and memory is unchanged. */
    method Save(now: int, nonce: nat)
      requires cipher.Inverse() && current.Some?
      modifies this`file
      ensures Value() == old(Value())
      ensures file.Some? && AtRest(file.value)
      ensures Decrypts(cipher, file.value, Value().(updatedAt := now))
    {
      var sc := DeepCopy(current.value);
      sc := sc.(updatedAt := now);
      assert Read(sc) == Read(current.value).(updatedAt := now);
      var e := EncryptConfig(cipher, sc, nonce);
      var doc := Marshal(e);
      file := Some(doc);
    }

    /** All or nothing: either every secret decrypts and the configuration is
        replaced by what the file means, or nothing changes. */
    method Load() returns (ok: bool)
      modifies this`current
      ensures ok <==> file.Some? && Readable(cipher, file.value)
      ensures ok ==> current.Some? && fresh(Reach(current.value)) && Decrypts(cipher, file.value, Value())
      ensures !ok ==> current == old(current)
    {
      if file.None? {
        return false;
      }
      var sc := Unmarshal(file.value);
      var d: ConfigRef;
      ok, d := DecryptConfig(cipher, sc);
      if ok {
        current := Some(d);
      }
    }

    /** Get: a configuration that shares nothing with the store. */
    method Get() returns (c: ConfigRef)
      ensures fresh(Reach(c)) && Separate(c.targets) && Read(c) == Value()
    {
      if current.None? {
        c := Unmarshal(ZERO);
      } else {
        c := DeepCopy(current.value);
      }
    }

    /** HandleGetSettings: the answer is masked, the store is not. */
    method GetMasked() returns (m: ConfigRef)
      ensures fresh(Reach(m)) && Separate(m.targets) && Read(m) == Masked(Value())
      ensures Hides(Read(m)) && SameButSecrets(Read(m), Value())
      ensures Value() == old(Value())
    {
      var c := Get();
      m := MaskConfig(c);
      MaskedHides(Value());
    }

    method Update(sc: ConfigRef, now: int, nonce: nat)
      requires cipher.Inverse()
      modifies this
      ensures current.Some?
      ensures Value()
              == old(Read(sc)).(updatedAt := now, version := 1,
                                createdAt := if old(current.Some?) then old(Value()).createdAt else sc.createdAt)
      ensures file.Some? && AtRest(file.value) && Decrypts(cipher, file.value, Value())
    {
      var created := if current.Some? then current.value.createdAt else sc.createdAt;
      current := Some(sc.(updatedAt := now, version := 1, createdAt := created));
      Save(now, nonce);
    }

    /** Take masked secrets from the current configuration and replace it. */
    method Accept(imported: ConfigRef, now: int, nonce: nat)
      requires cipher.Inverse() && Separate(imported.targets)
      modifies this, KeyArrays(imported.targets)
      ensures Value() == Merged(old(Value()), old(Read(imported))).(
                           updatedAt := now, version := 1,
                           createdAt := if old(current.Some?) then old(Value()).createdAt else imported.createdAt)
      ensures file.Some? && AtRest(file.value) && Decrypts(cipher, file.value, Value())
    {
      var cur := Get();
      assert Read(cur) == old(Value()) && Read(imported) == old(Read(imported));
      var merged := MergeConfig(cur, imported);
      assert merged.createdAt == imported.createdAt;
      Update(merged, now, nonce);
    }

    /** HandleImportConfig, after decoding: reject, or merge and update. */
    method Import(metaVersion: int, imported: ConfigRef, now: int, nonce: nat) returns (r: ImportResult)
      requires cipher.Inverse() && Separate(imported.targets)
      modifies this, KeyArrays(imported.targets)
      ensures r.Imported? <==> metaVersion != 0 && Acceptable(old(Read(imported)))
      ensures !r.Imported? ==> current == old(current) && file == old(file) && Value() == old(Value())
      ensures r.Imported? ==> Value() == Merged(old(Value()), old(Read(imported))).(
                                           updatedAt := now, version := 1,
                                           createdAt := if old(current.Some?) then old(Value()).createdAt
                                                        else imported.createdAt)
      ensures r.Imported? ==> file.Some? && AtRest(file.value) && Decrypts(cipher, file.value, Value())
    {
      if metaVersion == 0 {
        return MissingVersion;
      }
      if imported.targets.Length == 0 {
        return NoTargets;
      }
      var named := HostNamesPresent(imported.targets);
      if !named {
        return MissingHostName;
      }
      assert Value() == old(Value()) && Read(imported) == old(Read(imported)) && Acceptable(Read(imported));
      Accept(imported, now, nonce);
      return Imported;
    }
  }

  /** Save then Load restores every field except UpdatedAt. */
  method SaveThenLoad(s: Store, now: int, nonce: nat) returns (ok: bool)
    requires s.cipher.Inverse() && s.current.Some?
    modifies s
    ensures ok && s.current.Some?
    ensures s.Value() == old(s.Value()).(updatedAt := now)
  {
    ghost var before := s.Value();
    s.Save(now, nonce);
    ghost var doc := s.file.value;
    DecryptsReadable(s.cipher, doc, before.(updatedAt := now));
    ok := s.Load();
    DecryptsUnique(s.cipher, doc, before.(updatedAt := now), s.Value());
  }

  lemma DecryptsReadable(c: Cipher, stored: Config, plain: Config)
    requires Decrypts(c, stored, plain)
    ensures Readable(c, stored)
  {
    forall i, j | 0 <= i < |stored.targets| && 0 <= j < |stored.targets[i].apiKeys|
      ensures c.Decrypt(stored.targets[i].apiKeys[j]).Some?
    {
      assert KeysDecrypt(c, stored.targets[i].apiKeys, plain.targets[i].apiKeys);
    }
  }

  /** Masking the configuration and importing the result over the same store
      restores every secret, when the targets with equal IDs agree. */
  method MaskThenImport(s: Store, now: int, nonce: nat) returns (r: ImportResult)
    requires s.cipher.Inverse()
    requires DuplicatesAgree(s.Value().targets)
    modifies s
    ensures r.Imported? <==> Acceptable(old(s.Value()))
    ensures r.Imported? ==> s.Value() == old(s.Value()).(updatedAt := now, version := 1)
  {
    ghost var before := s.Value();
    var m := s.GetMasked();
    MaskImportIff(before);
    MaskedAcceptable(before);
    r := s.Import(1, m, now, nonce);
  }
}

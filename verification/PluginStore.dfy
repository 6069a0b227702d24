/**
 The encrypted plugin store: internal/crypto/secret.go and the plugin bucket of
 internal/store/store.go. Seen through its reads it is a plain map from plugin ids
 to plaintext records.
 */
module PluginStore {
  import opened Prelude

  // ---- Cipher ----------------------------------------------------------------------------

  // Seal takes a nonce and a plaintext to base64 text; Open inverts it or fails.
  datatype Cipher = Cipher(seal: (nat, string) -> string, open: string -> Option<string>)

  ghost predicate Lawful(c: Cipher) {
    forall nonce, p :: c.open(c.seal(nonce, p)) == Some(p)
  }

  const PREFIX := "enc:v1:"

  predicate IsEncrypted(v: string) {
    |v| >= |PREFIX| && v[..|PREFIX|] == PREFIX
  }

  function Encrypt(c: Cipher, nonce: nat, plaintext: string): string {
    if plaintext == "" || IsEncrypted(plaintext) then plaintext else PREFIX + c.seal(nonce, plaintext)
  }

  function Decrypt(c: Cipher, v: string): Option<string> {
    if !IsEncrypted(v) then Some(v) else c.open(v[|PREFIX|..])
  }

  lemma Prefixed(x: string)
    ensures IsEncrypted(PREFIX + x) && (PREFIX + x)[|PREFIX|..] == x
  {
  }

  // A sealed text is at least as long as what it opens to: base64 over nonce, text and tag.
  ghost predicate Lengthening(c: Cipher) {
    forall v :: c.open(v).Some? ==> |c.open(v).value| <= |v|
  }

  // Decrypting what was encrypted gives the plaintext back exactly if it did not look
  // like a ciphertext; one that did is stored as it is and read back through Open.
  lemma EncryptRoundTrip(c: Cipher, nonce: nat, p: string)
    requires Lawful(c)
    ensures Encrypt(c, nonce, p) == "" <==> p == ""
    ensures !IsEncrypted(p) ==> Decrypt(c, Encrypt(c, nonce, p)) == Some(p)
    ensures IsEncrypted(p) ==> Decrypt(c, Encrypt(c, nonce, p)) == c.open(p[|PREFIX|..])
    ensures Lengthening(c) ==> (Decrypt(c, Encrypt(c, nonce, p)) == Some(p) <==> !IsEncrypted(p))
    ensures Encrypt(c, nonce, p) == "" || IsEncrypted(Encrypt(c, nonce, p))
  {
    Prefixed(c.seal(nonce, p));
    if IsEncrypted(p) && c.open(p[|PREFIX|..]) == Some(p) {
      assert |p| > |p[|PREFIX|..]|;
    }
  }

  // A stand-in that accepts only what it sealed itself.
  function Marked(): Cipher {
    Cipher((nonce, p) => "#" + p, v => if v != "" && v[0] == '#' then Some(v[1..]) else None)
  }

  // A plaintext that looks like a ciphertext is not sealed, and reading it fails.
  lemma PrefixedPlaintextUnreadable()
    ensures Lawful(Marked()) && Lengthening(Marked())
    ensures Encrypt(Marked(), 0, "enc:v1:pw") == "enc:v1:pw" && Decrypt(Marked(), "enc:v1:pw") == None
  {
    assert forall p: string :: ("#" + p)[1..] == p;
    assert "enc:v1:pw" == PREFIX + "pw";
    Prefixed("pw");
  }

  // Encrypting again changes nothing: safe on read-modify-write paths.
  lemma EncryptIdempotent(c: Cipher, nonce: nat, nonce2: nat, p: string)
    ensures Encrypt(c, nonce2, Encrypt(c, nonce, p)) == Encrypt(c, nonce, p)
  {
    Prefixed(c.seal(nonce, p));
  }

  // ---- Records ----------------------------------------------------------------------------

  datatype Info = Info(details: string, rabbitPassword: string, redisPassword: string)

  datatype Record = Record(id: string, status: string, installedAt: int, details: string, info: Option<Info>)

  function SealRecord(c: Cipher, nonce: nat, r: Record): Record {
    match r.info
    case None => r
    case Some(i) =>
      r.(info := Some(i.(rabbitPassword := Encrypt(c, nonce, i.rabbitPassword),
                         redisPassword := Encrypt(c, nonce + 1, i.redisPassword))))
  }

  function OpenRecord(c: Cipher, r: Record): Option<Record> {
    match r.info
    case None => Some(r)
    case Some(i) =>
      match (Decrypt(c, i.rabbitPassword), Decrypt(c, i.redisPassword))
      case (Some(a), Some(b)) => Some(r.(info := Some(i.(rabbitPassword := a, redisPassword := b))))
      case _ => None
  }

  // Plaintext credentials never start with the prefix.
  predicate PlainInfo(info: Option<Info>) {
    info.Some? ==> !IsEncrypted(info.value.rabbitPassword) && !IsEncrypted(info.value.redisPassword)
  }

  predicate PlainCredentials(r: Record) {
    PlainInfo(r.info)
  }

  function WithStatus(r: Option<Record>, status: string): Option<Record> {
    match r case None => None case Some(v) => Some(v.(status := status))
  }

  predicate Protected(r: Record) {
    r.info.Some? ==>
      && (r.info.value.rabbitPassword == "" || IsEncrypted(r.info.value.rabbitPassword))
      && (r.info.value.redisPassword == "" || IsEncrypted(r.info.value.redisPassword))
  }

  // Writing a record, fresh plaintext or one just read from the bucket, protects its
  // credentials and does not change what a reader sees, an error included.
  lemma SealedReadsTheSame(c: Cipher, nonce: nat, r: Record)
    requires Lawful(c)
    ensures OpenRecord(c, SealRecord(c, nonce, r)) == OpenRecord(c, r)
    ensures Protected(SealRecord(c, nonce, r))
  {
    if r.info.Some? {
      var i := r.info.value;
      Prefixed(c.seal(nonce, i.rabbitPassword));
      Prefixed(c.seal(nonce + 1, i.redisPassword));
    }
  }

  // ---- Objects handed in and out ---------------------------------------------------------

  class RuntimeInfo {
    var details: string
    var rabbitPassword: string
    var redisPassword: string

    constructor (i: Info)
      ensures Value() == i
    {
      details, rabbitPassword, redisPassword := i.details, i.rabbitPassword, i.redisPassword;
    }

    function Value(): Info
      reads this
    {
      Info(details, rabbitPassword, redisPassword)
    }
  }

  class PluginInstance {
    var id: string
    var status: string
    var installedAt: int
    var details: string
    var runtimeInfo: RuntimeInfo?

    constructor (id: string, status: string, installedAt: int, details: string, runtimeInfo: RuntimeInfo?)
      ensures this.id == id && this.status == status && this.installedAt == installedAt
      ensures this.details == details && this.runtimeInfo == runtimeInfo
    {
      this.id, this.status, this.installedAt, this.details, this.runtimeInfo := id, status, installedAt, details, runtimeInfo;
    }

    function Value(): Record
      reads this, runtimeInfo
    {
      Record(id, status, installedAt, details, if runtimeInfo == null then None else Some(runtimeInfo.Value()))
    }
  }

  // A record as decoded from the bucket: objects of its own.
  method Decode(r: Record) returns (inst: PluginInstance)
    ensures fresh(inst) && inst.Value() == r
    ensures inst.runtimeInfo != null ==> fresh(inst.runtimeInfo)
  {
    var ri: RuntimeInfo? := null;
    if r.info.Some? {
      ri := new RuntimeInfo(r.info.value);
    }
    inst := new PluginInstance(r.id, r.status, r.installedAt, r.details, ri);
  }

  // ---- Store --------------------------------------------------------------------------------

  class Store {
    const cipher: Cipher
    var bucket: map<string, Record>
    var nonces: nat  // stands for the random source
    ghost var spent: seq<nat>  // the nonces sealed with so far

    constructor (cipher: Cipher, bucket: map<string, Record>)
      ensures this.cipher == cipher && this.bucket == bucket
      ensures Lawful(cipher) ==> Valid()
    {
      this.cipher, this.bucket, nonces, spent := cipher, bucket, 0, [];
    }

    // No two seals share a nonce.
    ghost predicate Valid()
      reads this
    {
      && Lawful(cipher)
      && (forall i :: 0 <= i < |spent| ==> spent[i] < nonces)
      && (forall i, j :: 0 <= i < j < |spent| ==> spent[i] != spent[j])
    }

    // What reading each id yields; None is a read error.
    ghost function Reads(): map<string, Option<Record>>
      reads this
    {
      map id | id in bucket :: OpenRecord(cipher, bucket[id])
    }

    // Cipher.Encrypt with a nonce never used before.
    method Seal(plaintext: string) returns (v: string)
      requires Valid()
      modifies this`nonces, this`spent
      ensures Valid() && nonces == old(nonces) + 1
      ensures v == Encrypt(cipher, old(nonces), plaintext)
      ensures spent == old(spent) + (if plaintext == "" || IsEncrypted(plaintext) then [] else [old(nonces)])
    {
      v := Encrypt(cipher, nonces, plaintext);
      if plaintext != "" && !IsEncrypted(plaintext) {
        spent := spent + [nonces];
      }
      nonces := nonces + 1;
    }

    method EncryptInstance(inst: PluginInstance)
      requires Valid()
      modifies this`nonces, this`spent, inst.runtimeInfo
      ensures Valid()
      ensures inst.Value() == SealRecord(cipher, old(nonces), old(inst.Value()))
    {
      if inst.runtimeInfo == null {
        return;
      }
      inst.runtimeInfo.rabbitPassword := Seal(inst.runtimeInfo.rabbitPassword);
      inst.runtimeInfo.redisPassword := Seal(inst.runtimeInfo.redisPassword);
    }

    // Serializes an encrypted copy: neither the instance nor its RuntimeInfo, which
    // belong to the caller, is written.
    method MarshalInstance(inst: PluginInstance) returns (data: Record)
      requires Valid()
      modifies this`nonces, this`spent
      ensures Valid()
      ensures data == SealRecord(cipher, old(nonces), inst.Value())
    {
      var enc := new PluginInstance(inst.id, inst.status, inst.installedAt, inst.details, inst.runtimeInfo);
      if inst.runtimeInfo != null {
        enc.runtimeInfo := new RuntimeInfo(inst.runtimeInfo.Value());
      }
      assert enc.Value() == inst.Value();
      EncryptInstance(enc);
      data := enc.Value();
    }

    // Marshals the instance and puts it under the id.
    method Put(id: string, inst: PluginInstance)
      requires Valid()
      modifies this`bucket, this`nonces, this`spent
      ensures Valid()
      ensures Reads() == old(Reads())[id := OpenRecord(cipher, inst.Value())]
      ensures bucket.Keys == old(bucket).Keys + {id} && Protected(bucket[id])
      ensures forall other :: other != id && other in bucket ==> bucket[other] == old(bucket)[other]
    {
      hide OpenRecord, SealRecord, Protected;
      ghost var before := Reads();
      var data := MarshalInstance(inst);
      SealedReadsTheSame(cipher, old(nonces), inst.Value());
      bucket := bucket[id := data];
      assert Reads() == before[id := OpenRecord(cipher, inst.Value())];
    }

    method SavePlugin(inst: PluginInstance, now: int)
      requires Valid()
      modifies this`bucket, this`nonces, this`spent, inst`installedAt
      ensures Valid()
      ensures inst.installedAt == if old(inst.installedAt) == 0 then now else old(inst.installedAt)
      ensures Reads() == old(Reads())[inst.id := OpenRecord(cipher, inst.Value())]
      ensures PlainCredentials(inst.Value()) ==> Reads()[inst.id] == Some(inst.Value())
      ensures bucket.Keys == old(bucket).Keys + {inst.id} && Protected(bucket[inst.id])
      ensures forall other :: other != inst.id && other in bucket ==> bucket[other] == old(bucket)[other]
    {
      if inst.installedAt == 0 {
        inst.installedAt := now;
      }
      Put(inst.id, inst);
    }

    method DecryptInstance(inst: PluginInstance) returns (ok: bool)
      modifies inst.runtimeInfo
      ensures ok <==> OpenRecord(cipher, old(inst.Value())).Some?
      ensures ok ==> inst.Value() == OpenRecord(cipher, old(inst.Value())).value
    {
      if inst.runtimeInfo == null {
        return true;
      }
      var rabbit := Decrypt(cipher, inst.runtimeInfo.rabbitPassword);
      if rabbit == None {
        return false;
      }
      inst.runtimeInfo.rabbitPassword := rabbit.value;
      var redis := Decrypt(cipher, inst.runtimeInfo.redisPassword);
      if redis == None {
        return false;
      }
      inst.runtimeInfo.redisPassword := redis.value;
      ok := true;
    }

    method GetPlugin(id: string) returns (inst: PluginInstance?, ok: bool)
      ensures inst == null <==> id !in Reads()
      ensures ok <==> (id in Reads() ==> Reads()[id].Some?)
      ensures ok && inst != null ==> fresh(inst) && Some(inst.Value()) == Reads()[id]
    {
      if id !in bucket {
        return null, true;
      }
      var decoded := Decode(bucket[id]);
      ok := DecryptInstance(decoded);
      inst := decoded;
    }

    // Stops at the first record that does not open.
    method ListPlugins() returns (list: seq<PluginInstance>, ok: bool, ghost ids: seq<string>)
      ensures ok <==> forall id :: id in Reads() ==> Reads()[id].Some?
      ensures |list| == |ids| && (ok ==> forall id :: id in ids <==> id in Reads())
      ensures forall i, j :: 0 <= i < j < |ids| ==> ids[i] != ids[j]
      ensures forall i :: 0 <= i < |ids| ==> ids[i] in Reads() && Some(list[i].Value()) == Reads()[ids[i]]
    {
      hide OpenRecord;
      list, ids, ok := [], [], true;
      var rest := bucket.Keys;
      while rest != {}
        invariant rest <= bucket.Keys && |list| == |ids|
        invariant forall id :: id in ids <==> id in bucket && id !in rest
        invariant forall i, j :: 0 <= i < j < |ids| ==> ids[i] != ids[j]
        invariant forall i :: 0 <= i < |list| ==> fresh(list[i]) && (list[i].runtimeInfo != null ==> fresh(list[i].runtimeInfo))
        invariant forall i :: 0 <= i < |ids| ==> Some(list[i].Value()) == OpenRecord(cipher, bucket[ids[i]])
      {
        var id :| id in rest;
        rest := rest - {id};
        var inst := Decode(bucket[id]);
        var readable := DecryptInstance(inst);
        if !readable {
          assert Reads()[id] == None;
          return list, false, ids;
        }
        list, ids := list + [inst], ids + [id];
      }
      forall id | id in Reads() ensures Reads()[id].Some? {
        var i :| 0 <= i < |ids| && ids[i] == id;
      }
    }

    method DeletePlugin(id: string)
      modifies this`bucket
      ensures Reads() == old(Reads()) - {id} && bucket == old(bucket) - {id}
    {
      bucket := bucket - {id};
    }

    // Rewrites the stored record with a new status; credentials stay as they are, but
    // legacy plaintext is encrypted on the way.
    method UpdateStatus(id: string, status: string) returns (found: bool)
      requires Valid()
      modifies this`bucket, this`nonces, this`spent
      ensures Valid()
      ensures found <==> id in old(Reads())
      ensures Reads() == if found then old(Reads())[id := WithStatus(old(Reads())[id], status)] else old(Reads())
      ensures bucket.Keys == old(bucket).Keys && (found ==> Protected(bucket[id]))
      ensures forall other :: other != id && other in bucket ==> bucket[other] == old(bucket)[other]
    {
      if id !in bucket {
        return false;
      }
      var inst := Decode(bucket[id]);
      inst.status := status;
      assert OpenRecord(cipher, inst.Value()) == WithStatus(old(Reads())[id], status);
      Put(id, inst);
      found := true;
    }

    // The caller's RuntimeInfo is put into the record; only an encrypted copy is kept.
    method UpdateRuntimeInfo(id: string, info: RuntimeInfo?) returns (found: bool)
      requires Valid()
      modifies this`bucket, this`nonces, this`spent
      ensures Valid()
      ensures found <==> id in old(Reads())
      ensures
        var given := if info == null then None else Some(info.Value());
        && Reads() == (if found then old(Reads())[id := OpenRecord(cipher, old(bucket)[id].(info := given))] else old(Reads()))
        && (found && old(Reads())[id].Some? && PlainInfo(given) ==>
              Reads()[id] == Some(old(Reads())[id].value.(info := given)))
      ensures bucket.Keys == old(bucket).Keys && (found ==> Protected(bucket[id]))
      ensures forall other :: other != id && other in bucket ==> bucket[other] == old(bucket)[other]
    {
      if id !in bucket {
        return false;
      }
      var inst := Decode(bucket[id]);
      inst.runtimeInfo := info;
      ghost var given := if info == null then None else Some(info.Value());
      assert inst.Value() == old(bucket)[id].(info := given);
      Put(id, inst);
      found := true;
    }
  }

  // ---- Refinement of a plain map over any sequence of operations -------------------------------

  datatype Op =
    | Save(record: Record)
    | SetStatus(id: string, status: string)
    | SetInfo(id: string, info: Option<Info>)
    | Delete(id: string)

  predicate PlainOp(op: Op) {
    (op.Save? ==> PlainCredentials(op.record)) && (op.SetInfo? ==> PlainInfo(op.info))
  }

  // The operation on a map of plaintext records.
  function OnPlain(op: Op, m: map<string, Record>, now: int): map<string, Record> {
    match op
    case Save(r) => m[r.id := r.(installedAt := if r.installedAt == 0 then now else r.installedAt)]
    case SetStatus(id, status) => if id in m then m[id := m[id].(status := status)] else m
    case SetInfo(id, info) => if id in m then m[id := m[id].(info := info)] else m
    case Delete(id) => m - {id}
  }

  // After operations done at the given times.
  function PlainAfter(m: map<string, Record>, ops: seq<Op>, times: seq<int>): map<string, Record>
    requires |ops| == |times|
  {
    if ops == [] then m
    else OnPlain(ops[|ops| - 1], PlainAfter(m, ops[..|ops| - 1], times[..|ops| - 1]), times[|ops| - 1])
  }

  function Shown(m: map<string, Record>): map<string, Option<Record>> {
    map id | id in m :: Some(m[id])
  }

  // What one operation leaves: rewritten records protected, the others as they were.
  twostate predicate OnlyProtectedWrites(store: Store)
    reads store
  {
    forall id :: id in store.bucket ==>
      Protected(store.bucket[id]) || (id in old(store.bucket) && store.bucket[id] == old(store.bucket)[id])
  }

  method PerformSetInfo(store: Store, id: string, info: Option<Info>, ghost plain: map<string, Record>)
    requires store.Valid() && PlainInfo(info) && store.Reads() == Shown(plain)
    modifies store
    ensures store.Valid()
    ensures store.Reads() == Shown(OnPlain(SetInfo(id, info), plain, 0))
    ensures OnlyProtectedWrites(store)
  {
    hide OpenRecord, Protected, IsEncrypted, PlainInfo;
    var given: RuntimeInfo? := null;
    if info.Some? {
      given := new RuntimeInfo(info.value);
    }
    assert store.Reads() == Shown(plain);
    var found := store.UpdateRuntimeInfo(id, given);
  }

  method Perform(store: Store, op: Op, now: int, ghost plain: map<string, Record>)
    requires store.Valid() && PlainOp(op) && store.Reads() == Shown(plain)
    modifies store
    ensures store.Valid()
    ensures store.Reads() == Shown(OnPlain(op, plain, now))
    ensures OnlyProtectedWrites(store)
  {
    hide OpenRecord, Protected, IsEncrypted, PlainInfo;
    match op {
      case Save(r) =>
        var inst := Decode(r);
        store.SavePlugin(inst, now);
      case SetStatus(id, status) =>
        var found := store.UpdateStatus(id, status);
      case SetInfo(id, info) =>
        PerformSetInfo(store, id, info, plain);
      case Delete(id) =>
        store.DeletePlugin(id);
    }
  }

  // After any sequence of operations every read returns what the plain map would
  // hold; a credential still in plaintext is one that was there before and was never
  // rewritten.
  method PerformAll(store: Store, ops: seq<Op>, times: seq<int>, ghost plain: map<string, Record>)
    requires store.Valid() && store.Reads() == Shown(plain)
    requires |ops| == |times| && forall i :: 0 <= i < |ops| ==> PlainOp(ops[i])
    modifies store
    ensures store.Valid()
    ensures store.Reads() == Shown(PlainAfter(plain, ops, times))
    ensures OnlyProtectedWrites(store)
  {
    hide OnPlain, Shown, PlainOp, Protected;
    for i := 0 to |ops|
      invariant store.Valid() && store.Reads() == Shown(PlainAfter(plain, ops[..i], times[..i]))
      invariant OnlyProtectedWrites(store)
    {
      assert ops[..i + 1][..i] == ops[..i] && times[..i + 1][..i] == times[..i];
      Perform(store, ops[i], times[i], PlainAfter(plain, ops[..i], times[..i]));
    }
    assert ops[..|ops|] == ops && times[..|ops|] == times;
  }
}

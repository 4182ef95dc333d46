/**
 The App Attest replay counter over a group of equivalent key spellings
 (internal/firestore/store.go:120-206, 465-505, internal/attest/stub.go:26-121,
 internal/attest/attestation.go:196-219, internal/attest/attest.go:147-188).
 Signatures and certificates are opaque: a request may fail them at any point.
 */
module Counters {
  import opened Names
  import opened KeyId
  import opened Wrappers

  type uint32 = n: int | 0 <= n < 0x1_0000_0000

  type Spki = string

  /** A stored key document; `None` is a field that is missing or does not decode. */
  datatype KeyDoc = KeyDoc(spki: Option<Spki>, signCount: Option<uint32>)

  type Docs = map<string, KeyDoc>

  datatype Advance = Advanced | UnknownKey | Replay | KeyConflict | Undecodable

  datatype Create = Created | AlreadyExists | CreateConflict | CreateUndecodable

  // ---- alias groups -----------------------------------------------------------------

  /** The documents that share one counter: all spellings of the hash, or just the id if it has none. */
  ghost function Group(keyId: string): set<string> {
    if CanonicalKeyId(keyId) == None then {keyId}
    else SpellingsUpTo(DecodeBase64(keyId).value, 16)
  }

  method KeyAliases(keyId: string) returns (aliases: set<string>)
    ensures aliases == Group(keyId)
  {
    var r := KeyIdAliases(keyId);
    if r == None { return {keyId}; }
    AliasesAreGroup(keyId, r.value);
    return Elements(r.value);
  }

  lemma AliasesAreGroup(keyId: string, aliases: seq<string>)
    requires CanonicalKeyId(keyId).Some?
    requires forall s :: s in aliases <==> NewlineFree(s) && CanonicalKeyId(s) == CanonicalKeyId(keyId)
    ensures Elements(aliases) == Group(keyId)
  {
    hide DecodeBase64, EncodePadded, Spelling, SpellingsUpTo, IsSpelling;
    var raw: Hash := DecodeBase64(keyId).value;
    forall s ensures s in Elements(aliases) <==> s in Group(keyId) {
      AllSpellings(raw, s);
      SameIdentityIffSpelling(raw, s);
    }
  }

  lemma MemberOfGroup(keyId: string, s: string)
    requires CanonicalKeyId(keyId).Some?
    ensures s in Group(keyId) <==> NewlineFree(s) && CanonicalKeyId(s) == CanonicalKeyId(keyId)
  {
    hide DecodeBase64, EncodePadded, Spelling, SpellingsUpTo, IsSpelling;
    var raw: Hash := DecodeBase64(keyId).value;
    AllSpellings(raw, s);
    SameIdentityIffSpelling(raw, s);
  }

  /** Two canonical identities never share a document. */
  lemma GroupsAreDisjoint(a: string, b: string)
    requires CanonicalKeyId(a) == Some(a) && CanonicalKeyId(b) == Some(b) && a != b
    ensures Group(a) !! Group(b)
  {
    hide CanonicalKeyId, Group;
    forall s ensures !(s in Group(a) && s in Group(b)) {
      MemberOfGroup(a, s);
      MemberOfGroup(b, s);
    }
  }

  /** A canonical identity is in its own group. */
  lemma CanonicalInGroup(keyId: string)
    requires CanonicalKeyId(keyId) == Some(keyId)
    ensures keyId in Group(keyId)
  {
    var raw: Hash := DecodeBase64(keyId).value;
    hide DecodeBase64, Spelling, SpellingsUpTo, IsSpelling;
    EncodePaddedIsSpelling(Std, raw);
    SpellingIsNewlineFree(Std, raw, 0, true);
    hide EncodePadded;
    MemberOfGroup(keyId, keyId);
  }

  // ---- what one transaction does --------------------------------------------------------

  /** This document carries `spki` and a counter below `next`. */
  predicate Below(d: KeyDoc, spki: Spki, next: int) {
    d.spki == Some(spki) && d.signCount.Some? && d.signCount.value < next
  }

  ghost predicate MayAdvance(docs: Docs, group: set<string>, keyId: string, next: int) {
    keyId in docs && keyId in group && docs[keyId].spki.Some? &&
    forall alias :: alias in group && alias in docs ==> Below(docs[alias], docs[keyId].spki.value, next)
  }

  /** The group is sound and already counts `next` or more. */
  ghost predicate IsReplay(docs: Docs, group: set<string>, keyId: string, next: int) {
    keyId in docs && keyId in group && docs[keyId].spki.Some? && MayCreate(docs, group, docs[keyId].spki.value) &&
    exists alias :: alias in group && alias in docs && docs[alias].signCount.value >= next
  }

  /** The transaction of AdvanceSignCount: set the canonical counter, or change nothing. */
  ghost function AdvanceDocs(docs: Docs, group: set<string>, keyId: string, next: uint32): Docs {
    if MayAdvance(docs, group, keyId, next) then docs[keyId := docs[keyId].(signCount := Some(next))] else docs
  }

  /** Every stored spelling of the key decodes and carries `spki`. */
  predicate Agreed(d: KeyDoc, spki: Spki) { d.spki == Some(spki) && d.signCount.Some? }

  ghost predicate MayCreate(docs: Docs, group: set<string>, spki: Spki) {
    forall alias :: alias in group && alias in docs ==> Agreed(docs[alias], spki)
  }

  /** `m` is the largest of `floor` and the stored counters of the group. */
  ghost predicate IsMaximum(docs: Docs, group: set<string>, floor: int, m: int) {
    floor <= m &&
    (forall alias :: alias in group && alias in docs && docs[alias].signCount.Some? ==>
       docs[alias].signCount.value <= m) &&
    (m == floor || exists alias :: alias in group && alias in docs && docs[alias].signCount == Some(m))
  }

  ghost predicate CreatesDocs(docs: Docs, group: set<string>, keyId: string, spki: Spki, count: uint32, docs': Docs) {
    if MayCreate(docs, group, spki)
    then exists m: uint32 :: IsMaximum(docs, group, count, m) && docs' == docs[keyId := KeyDoc(Some(spki), Some(m))]
    else docs' == docs
  }

  // ---- the stores -----------------------------------------------------------------------

  class FirestoreKeyStore {
    var docs: Docs

    method GetKey(keyId: string) returns (r: Option<KeyDoc>)
      ensures r ==
        if keyId in docs && docs[keyId].spki.Some? && docs[keyId].signCount.Some? then Some(docs[keyId]) else None
    {
      if keyId !in docs { return None; }
      var d := docs[keyId];
      return if d.spki == None || d.signCount == None then None else Some(d);
    }

    /** Reads the group in an arbitrary order; the outcome "advanced" and the write do not depend on it. */
    method AdvanceSignCount(keyId: string, next: uint32) returns (r: Advance)
      modifies this
      ensures docs == AdvanceDocs(old(docs), Group(keyId), keyId, next)
      ensures r == Advanced <==> MayAdvance(old(docs), Group(keyId), keyId, next)
      ensures r == Replay <==> IsReplay(old(docs), Group(keyId), keyId, next)
      ensures r == UnknownKey <==> keyId !in old(docs) || keyId !in Group(keyId)
    {
      hide Group;
      var aliases := KeyAliases(keyId);
      if keyId !in docs || keyId !in aliases { return UnknownKey; }
      if docs[keyId].spki == None { return Undecodable; }
      var spki := docs[keyId].spki.value;
      var maximum := 0;
      var pending := aliases * docs.Keys;
      while pending != {}
        invariant pending <= aliases * docs.Keys
        invariant forall alias :: alias in aliases * docs.Keys && alias !in pending ==>
          docs[alias].spki == Some(spki) && docs[alias].signCount.Some? && docs[alias].signCount.value <= maximum
        invariant maximum == 0 || exists alias :: alias in aliases * docs.Keys && docs[alias].signCount == Some(maximum)
      {
        var alias :| alias in pending;
        pending := pending - {alias};
        var fields := docs[alias];
        if fields.spki == None { return Undecodable; }
        if fields.spki.value != spki { return KeyConflict; }
        if fields.signCount == None { return Undecodable; }
        if fields.signCount.value > maximum { maximum := fields.signCount.value; }
      }
      if next <= maximum { return Replay; }
      docs := docs[keyId := docs[keyId].(signCount := Some(next))];
      return Advanced;
    }

    /** `aborted` are the snapshots of runs that did not commit; `existing` is captured by the body. */
    method CreateKey(keyId: string, pubSpki: Spki, signCount: uint32, aborted: seq<Docs>) returns (r: Create)
      modifies this
      ensures CreatesDocs(old(docs), Group(keyId), keyId, pubSpki, signCount, docs)
      ensures r == Created || r == AlreadyExists <==> MayCreate(old(docs), Group(keyId), pubSpki)
      ensures r == AlreadyExists <==>
        MayCreate(old(docs), Group(keyId), pubSpki) && keyId in old(docs) && keyId in Group(keyId)
    {
      hide Group, MayCreate, IsMaximum;
      var aliases := KeyAliases(keyId);
      var existing, maximum := false, signCount;
      for i := 0 to |aborted|
        invariant docs == old(docs)
      {
        r, maximum, existing := CreateBody(aborted[i], aliases, keyId, pubSpki, signCount, existing);
      }
      r, maximum, existing := CreateBody(docs, aliases, keyId, pubSpki, signCount, existing);
      if r != Created { return; }
      docs := docs[keyId := KeyDoc(Some(pubSpki), Some(maximum))];
      return if existing then AlreadyExists else Created;
    }
  }

  /** One run of the body up to its write; `captured` is what an earlier, aborted run left behind. */
  method CreateBody(all: Docs, aliases: set<string>, keyId: string, pubSpki: Spki, signCount: uint32, captured: bool)
    returns (r: Create, maximum: uint32, existing: bool)
    ensures r != AlreadyExists && (r == Created <==> MayCreate(all, aliases, pubSpki))
    ensures r == Created ==>
      IsMaximum(all, aliases, signCount, maximum) && (existing <==> keyId in all && keyId in aliases)
  {
    existing := captured;
    existing := false;
    maximum := signCount;
    var pending := aliases * all.Keys;
    while pending != {}
      invariant pending <= aliases * all.Keys
      invariant forall alias :: alias in aliases * all.Keys && alias !in pending ==>
        Agreed(all[alias], pubSpki) && all[alias].signCount.value <= maximum
      invariant signCount <= maximum
      invariant maximum == signCount || exists alias ::
        alias in aliases * all.Keys && all[alias].signCount == Some(maximum)
      invariant existing <==> keyId in aliases * all.Keys - pending
    {
      var alias :| alias in pending;
      pending := pending - {alias};
      var fields := all[alias];
      if alias == keyId { existing := true; }
      if fields.spki == None { return CreateUndecodable, maximum, existing; }
      if fields.spki.value != pubSpki { return CreateConflict, maximum, existing; }
      if fields.signCount == None { return CreateUndecodable, maximum, existing; }
      if fields.signCount.value > maximum { maximum := fields.signCount.value; }
    }
    r := Created;
  }

  // ---- assertion and registration, one caller at a time ----------------------------------------

  datatype Verdict = Admitted | UnknownKeyId | Replayed | BadSignature | StoreRefused

  /** The key's own document is there, and both its fields decode. */
  predicate Stored(docs: Docs, keyId: string) {
    keyId in docs && docs[keyId].spki.Some? && docs[keyId].signCount.Some?
  }

  /**
   The stale pre-check never turns away an assertion the atomic advance would admit, and nothing but the
   advance changes the store.
   */
  method VerifyAssertion(store: FirestoreKeyStore, keyId: string, next: uint32, signatureOk: bool) returns (r: Verdict)
    modifies store
    ensures r == Admitted <==> signatureOk && MayAdvance(old(store.docs), Group(keyId), keyId, next)
    ensures store.docs ==
      if r == Admitted then AdvanceDocs(old(store.docs), Group(keyId), keyId, next) else old(store.docs)
    ensures r == UnknownKeyId <==>
      !Stored(old(store.docs), keyId) ||
      (signatureOk && old(store.docs)[keyId].signCount.value < next && keyId !in Group(keyId))
    ensures r == Replayed <==>
      Stored(old(store.docs), keyId) &&
      (next <= old(store.docs)[keyId].signCount.value ||
       (signatureOk && IsReplay(old(store.docs), Group(keyId), keyId, next)))
    ensures r == BadSignature <==>
      Stored(old(store.docs), keyId) && old(store.docs)[keyId].signCount.value < next && !signatureOk
  {
    hide Group;
    var stored := store.GetKey(keyId);
    if stored == None { return UnknownKeyId; }
    if next <= stored.value.signCount.value { return Replayed; }
    if !signatureOk { return BadSignature; }
    var advance := store.AdvanceSignCount(keyId, next);
    match advance {
      case Advanced => r := Admitted;
      case UnknownKey => r := UnknownKeyId;
      case Replay => r := Replayed;
      case _ => r := StoreRefused;
    }
  }

  datatype Registration = Registered | OtherKeyRegistered | RegistrationFailed

  /** A repeated registration of the same key succeeds and resets nothing; one of another key never does. */
  method RegisterAttestedKey(store: FirestoreKeyStore, keyId: string, spki: Spki, aborted: seq<Docs>)
    returns (r: Registration)
    modifies store
    ensures r == if MayCreate(old(store.docs), Group(keyId), spki) then Registered else RegistrationFailed
    ensures CreatesDocs(old(store.docs), Group(keyId), keyId, spki, 0, store.docs)
  {
    hide Group;
    var created := store.CreateKey(keyId, spki, 0, aborted);
    if created == AlreadyExists {
      var existing := store.GetKey(keyId);
      return if existing.Some? && existing.value.spki == Some(spki) then Registered else OtherKeyRegistered;
    }
    return if created == Created then Registered else RegistrationFailed;
  }

  datatype Record = Record(spki: Spki, signCount: uint32)

  ghost predicate MaximumRecord(records: map<string, Record>, aliases: set<string>, floor: uint32, m: uint32) {
    floor <= m &&
    (forall alias :: alias in aliases * records.Keys ==> records[alias].signCount <= m) &&
    (m == floor || exists alias :: alias in aliases * records.Keys && records[alias].signCount == m)
  }

  /** The in-memory store obeys the same two specifications. */
  class MemKeyStore {
    var records: map<string, Record>

    ghost function View(): Docs
      reads this
    {
      map k | k in records :: KeyDoc(Some(records[k].spki), Some(records[k].signCount))
    }

    method AdvanceSignCount(keyId: string, next: uint32) returns (r: Advance)
      modifies this
      ensures View() == AdvanceDocs(old(View()), Group(keyId) + {keyId}, keyId, next)
      ensures r == Advanced <==> MayAdvance(old(View()), Group(keyId) + {keyId}, keyId, next)
      ensures r == Replay <==> IsReplay(old(View()), Group(keyId) + {keyId}, keyId, next)
      ensures r == UnknownKey <==> keyId !in old(records)
    {
      hide Group;
      if keyId !in records { return UnknownKey; }
      var rec := records[keyId];
      var aliases := KeyAliases(keyId);
      var pending := aliases * records.Keys;
      ghost var group := aliases + {keyId};
      while pending != {}
        invariant pending <= aliases * records.Keys
        invariant rec.spki == records[keyId].spki
        invariant forall alias :: alias in group && alias in records && alias !in pending - {keyId} ==>
          records[alias].spki == rec.spki && records[alias].signCount <= rec.signCount
        invariant exists alias :: alias in group && alias in records && records[alias].signCount == rec.signCount
      {
        var alias :| alias in pending;
        pending := pending - {alias};
        var old' := records[alias];
        if old'.spki != rec.spki {
          assert alias in View() && !Below(View()[alias], View()[keyId].spki.value, next);
          return KeyConflict;
        }
        if old'.signCount > rec.signCount { rec := Record(rec.spki, old'.signCount); }
      }
      if next <= rec.signCount {
        ghost var w :| w in group && w in records && records[w].signCount == rec.signCount;
        assert w in View() && !Below(View()[w], View()[keyId].spki.value, next);
        return Replay;
      }
      records := records[keyId := Record(rec.spki, next)];
      return Advanced;
    }

    lemma RecordMaximum(aliases: set<string>, floor: uint32, m: uint32)
      requires MaximumRecord(records, aliases, floor, m)
      ensures IsMaximum(View(), aliases, floor, m)
    {
      if m != floor {
        var w :| w in aliases * records.Keys && records[w].signCount == m;
        assert w in View() && View()[w].signCount == Some(m);
      }
    }

    method CreateKey(keyId: string, pubSpki: Spki, signCount0: uint32) returns (r: Create)
      modifies this
      ensures CreatesDocs(old(View()), Group(keyId), keyId, pubSpki, signCount0, View())
      ensures r == Created || r == AlreadyExists <==> MayCreate(old(View()), Group(keyId), pubSpki)
      ensures r == AlreadyExists <==> MayCreate(old(View()), Group(keyId), pubSpki) && keyId in old(records)
    {
      hide Group;
      var existing := keyId in records;
      var signCount: uint32 := signCount0;
      var aliases := KeyAliases(keyId);
      var pending := aliases * records.Keys;
      while pending != {}
        invariant pending <= aliases * records.Keys
        invariant forall alias :: alias in aliases * records.Keys && alias !in pending ==>
          records[alias].spki == pubSpki && records[alias].signCount <= signCount
        invariant signCount0 <= signCount
        invariant signCount == signCount0 || exists alias ::
          alias in aliases * records.Keys && records[alias].signCount == signCount
      {
        var alias :| alias in pending;
        pending := pending - {alias};
        var old' := records[alias];
        if old'.spki != pubSpki {
          assert alias in View() && !Agreed(View()[alias], pubSpki);
          return CreateConflict;
        }
        if old'.signCount > signCount { signCount := old'.signCount; }
      }
      assert MaximumRecord(records, aliases, signCount0, signCount);
      RecordMaximum(aliases, signCount0, signCount);
      records := records[keyId := Record(pubSpki, signCount)];
      assert View() == old(View())[keyId := KeyDoc(Some(pubSpki), Some(signCount))];
      hide IsMaximum;
      return if existing then AlreadyExists else Created;
    }
  }
}

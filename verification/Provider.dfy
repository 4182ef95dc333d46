/**
 The billed provider: what counts as rejected, ambiguous or accepted, and in which order the effects of
 a scan happen (internal/azure/ocr.go:145-272). URLs are given as their parsed parts.
 */
module Provider {
  import opened Wrappers

  const OPERATION_PREFIX := "/documentintelligence/documentModels/prebuilt-receipt/analyzeResults/"

  const MAX_REFERENCE := 2048

  datatype Url = Url(scheme: string, host: string, hasUser: bool, fragment: string, rawPath: string, path: string,
                     query: map<string, seq<string>>)

  /** A string with what parsing it yields. */
  datatype Reference = Reference(text: string, url: Option<Url>)

  datatype Config = Config(endpoint: Option<Url>, apiVersion: string)

  // ---- operation references -------------------------------------------------------------

  predicate IdChar(c: char) { 'a' <= c <= 'z' || 'A' <= c <= 'Z' || '0' <= c <= '9' || c == '-' || c == '_' }

  predicate AllIdChars(s: string) { s == [] || (IdChar(s[0]) && AllIdChars(s[1..])) }

  predicate HasPrefix(s: string, p: string) { |p| <= |s| && s[..|p|] == p }

  predicate SameResource(op: Url, base: Url) {
    base.host != "" && (base.scheme == "http" || base.scheme == "https") && op.scheme == base.scheme &&
    op.host == base.host
  }

  predicate ValidQuery(q: map<string, seq<string>>, apiVersion: string) {
    "api-version" in q && q["api-version"] != [] && q["api-version"][0] == apiVersion && |q| == 1 &&
    |q["api-version"]| == 1
  }

  /** The checks of the last path segment, as they are made. */
  predicate ValidId(id: string) { id != "" && '/' !in id && '.' !in id && '\\' !in id && AllIdChars(id) }

  predicate ValidPath(path: string, prefix: string) { HasPrefix(path, prefix) && ValidId(path[|prefix|..]) }

  predicate ValidOperation(cfg: Config, r: Reference) {
    cfg.endpoint.Some? && r.url.Some? && SameResource(r.url.value, cfg.endpoint.value) &&
    !r.url.value.hasUser && r.url.value.fragment == "" && r.url.value.rawPath == "" && |r.text| <= MAX_REFERENCE &&
    ValidPath(r.url.value.path, OPERATION_PREFIX) && ValidQuery(r.url.value.query, cfg.apiVersion)
  }

  const UPPER_CASE := "ABCDEFGHIJKLMNOPQRSTUVWXYZ"

  const LOWER_CASE := "abcdefghijklmnopqrstuvwxyz"

  const DIGITS := "0123456789"

  predicate IsIdCharacter(c: char) { c in UPPER_CASE || c in LOWER_CASE || c in DIGITS || c in "-_" }

  predicate IsId(id: string) { id != "" && forall i :: 0 <= i < |id| ==> IsIdCharacter(id[i]) }

  /** The letters of an alphabet, one after the other. */
  lemma Consecutive(letters: string, first: char, c: char)
    requires 0 < |letters| && first as int + |letters| < 0x80
    requires forall i :: 0 <= i < |letters| ==> letters[i] as int == first as int + i
    ensures c in letters <==> first as int <= c as int < first as int + |letters|
  {
    if first as int <= c as int < first as int + |letters| { assert letters[c as int - first as int] == c; }
  }

  lemma IdCharIsListed(c: char)
    ensures IdChar(c) <==> IsIdCharacter(c)
  {
    UpperLetter(c);
    LowerLetter(c);
    assert c in DIGITS <==> '0' <= c <= '9' by { Consecutive(DIGITS, '0', c); }
    hide UPPER_CASE, LOWER_CASE, DIGITS;
  }

  lemma UpperLetter(c: char)
    ensures c in UPPER_CASE <==> 'A' <= c <= 'Z'
  {
    Consecutive(UPPER_CASE, 'A', c);
  }

  lemma LowerLetter(c: char)
    ensures c in LOWER_CASE <==> 'a' <= c <= 'z'
  {
    Consecutive(LOWER_CASE, 'a', c);
  }

  lemma {:induction false} IdCharsEverywhere(s: string)
    ensures AllIdChars(s) <==> forall i :: 0 <= i < |s| ==> IdChar(s[i])
  {
    if s != [] {
      IdCharsEverywhere(s[1..]);
      var rest := s[1..];
      assert (forall i :: 0 <= i < |rest| ==> IdChar(rest[i])) <==> forall i :: 1 <= i < |s| ==> IdChar(s[i]) by {
        forall i | 1 <= i < |s| ensures s[i] == rest[i - 1] {}
      }
    }
  }

  /** The separator checks are implied by the character check. */
  lemma ValidIdIff(id: string)
    ensures ValidId(id) <==> IsId(id)
  {
    IdCharsEverywhere(id);
    forall i | 0 <= i < |id| ensures IdChar(id[i]) <==> IsIdCharacter(id[i]) { IdCharIsListed(id[i]); }
    hide IsIdCharacter;
  }

  lemma ValidPathIff(path: string, prefix: string)
    ensures ValidPath(path, prefix) <==> exists id :: IsId(id) && path == prefix + id
  {
    hide ValidId, IsId;
    if HasPrefix(path, prefix) {
      assert path == prefix + path[|prefix|..];
      ValidIdIff(path[|prefix|..]);
    }
    forall id | path == prefix + id ensures HasPrefix(path, prefix) && path[|prefix|..] == id {}
  }

  lemma SingleEntry(q: map<string, seq<string>>, apiVersion: string)
    ensures ValidQuery(q, apiVersion) <==> q == map["api-version" := [apiVersion]]
  {
    if ValidQuery(q, apiVersion) {
      var rest := q.Keys - {"api-version"};
      assert |rest| == |q.Keys| - 1 == 0;
      assert q.Keys == {"api-version"} + rest;
      assert q["api-version"] == [apiVersion];
    }
  }

  /** On the configured resource, with nothing but a path and the version. */
  function Canonical(base: Url, path: string, apiVersion: string): Url {
    Url(base.scheme, base.host, false, "", "", path, map["api-version" := [apiVersion]])
  }

  /**
   The accepted references, exactly: on the configured resource, one path segment of identifier characters
   under the fixed prefix, the configured version as the only query parameter, and nothing else.
   */
  lemma ValidOperationIff(cfg: Config, r: Reference)
    ensures ValidOperation(cfg, r) <==>
      cfg.endpoint.Some? && cfg.endpoint.value.host != "" && cfg.endpoint.value.scheme in ["http", "https"] &&
      |r.text| <= 2048 &&
      exists id :: IsId(id) && r.url == Some(Canonical(cfg.endpoint.value,
        "/documentintelligence/documentModels/prebuilt-receipt/analyzeResults/" + id, cfg.apiVersion))
  {
    var prefix := "/documentintelligence/documentModels/prebuilt-receipt/analyzeResults/";
    assert OPERATION_PREFIX == prefix;
    hide OPERATION_PREFIX, ValidPath, ValidQuery, IsId;
    if r.url.Some? && cfg.endpoint.Some? {
      var u := r.url.value;
      SingleEntry(u.query, cfg.apiVersion);
      ValidPathIff(u.path, OPERATION_PREFIX);
      if ValidOperation(cfg, r) {
        var id :| IsId(id) && u.path == OPERATION_PREFIX + id;
        assert u == Canonical(cfg.endpoint.value, OPERATION_PREFIX + id, cfg.apiVersion);
      }
    }
  }

  // ---- effects ----------------------------------------------------------------------------

  datatype Effect = Posted | Recorded(op: string) | Got(op: string)

  /** What became of the upload. */
  datatype Upload = NotBuilt | TransportError | Answered(status: int, location: Reference)

  datatype Poll = PollFailed | Undecodable | Succeeded | AnalysisFailed | Pending | Unexpected

  datatype Outcome = Analysed | NotSubmitted | Failed

  const REJECTIONS: set<int> := {400, 401, 403, 404, 405, 413, 415, 422, 429}

  /** The first `n` answers were needed: all but the last said "not yet", and success is the last one succeeding. */
  predicate PollsUntil(answers: seq<Poll>, n: nat, ok: bool) {
    n <= |answers| && (forall i :: 0 <= i < n - 1 ==> answers[i] == Pending) &&
    (ok <==> n > 0 && answers[n - 1] == Succeeded) && (n < |answers| ==> n > 0 && answers[n - 1] != Pending)
  }

  function Gets(op: string, n: nat): seq<Effect> { seq(n, i => Got(op)) }

  /** One upload, the record if there is one to make, then polls of the accepted operation. */
  function ScanTrace(op: string, recorded: bool, polls: nat): seq<Effect> {
    [Posted] + (if recorded then [Recorded(op)] else []) + Gets(op, polls)
  }

  class Client {
    const cfg: Config
    var effects: seq<Effect>

    constructor (cfg: Config)
      ensures this.cfg == cfg && effects == []
    {
      this.cfg := cfg;
      effects := [];
    }

    /** The provider took the image and named an operation this client may poll. */
    predicate Accepted(upload: Upload) {
      upload.Answered? && upload.status in [200, 202] && upload.location.text != "" &&
      ValidOperation(cfg, upload.location)
    }

    method Submit(upload: Upload) returns (op: Option<Reference>, rejected: bool)
      modifies this
      ensures effects == old(effects) + if upload.NotBuilt? then [] else [Posted]
      ensures rejected <==>
        upload.NotBuilt? || (upload.Answered? && upload.status in [400, 401, 403, 404, 405, 413, 415, 422, 429])
      ensures op.Some? <==> upload.Answered? && upload.status in [200, 202] && upload.location.text != ""
      ensures op.Some? ==> op.value == upload.location
    {
      if upload.NotBuilt? { return None, true; }
      effects := effects + [Posted];
      if upload.TransportError? { return None, false; }
      if upload.status != 202 && upload.status != 200 { return None, upload.status in REJECTIONS; }
      if upload.location.text == "" { return None, false; }
      return Some(upload.location), false;
    }

    /** `answers` are what successive polls bring; the context ends with them. */
    method Poll(op: Reference, answers: seq<Poll>) returns (ok: bool)
      modifies this
      ensures exists n: nat :: PollsUntil(answers, n, ok) && effects == old(effects) + Gets(op.text, n)
    {
      var n := 0;
      while n < |answers|
        invariant 0 <= n <= |answers| && effects == old(effects) + Gets(op.text, n)
        invariant forall i :: 0 <= i < n ==> answers[i] == Pending
      {
        effects := effects + [Got(op.text)];
        n := n + 1;
        assert Gets(op.text, n) == Gets(op.text, n - 1) + [Got(op.text)];
        if answers[n - 1] == Succeeded {
          assert PollsUntil(answers, n, true);
          return true;
        }
        if answers[n - 1] != Pending {
          assert PollsUntil(answers, n, false);
          return false;
        }
      }
      assert PollsUntil(answers, n, false);
      return false;
    }

    /**
     At most one upload; a valid accepted reference is recorded before anything polls it, and a failed
     record ends the scan. "Not submitted" is reported exactly when the image was certainly not taken: there
     was nothing to send, no request, or one of nine statuses. A transport error, a redirect, a timeout, a
     conflict or any server error is not among them.
     */
    method ScanWithAcceptance(image: string, upload: Upload, hasCallback: bool, recordSucceeds: bool,
                              answers: seq<Poll>) returns (r: Outcome)
      modifies this
      ensures r == NotSubmitted <==>
        image == "" || upload.NotBuilt? ||
        (upload.Answered? && upload.status in [400, 401, 403, 404, 405, 413, 415, 422, 429])
      ensures image == "" ==> effects == old(effects)
      ensures image != "" && !Accepted(upload) ==>
        r != Analysed && effects == old(effects) + if upload.NotBuilt? then [] else [Posted]
      ensures image != "" && Accepted(upload) ==>
        if hasCallback && !recordSucceeds
        then r == Failed && effects == old(effects) + ScanTrace(upload.location.text, true, 0)
        else exists n: nat ::
          PollsUntil(answers, n, r == Analysed) &&
          effects == old(effects) + ScanTrace(upload.location.text, hasCallback, n)
    {
      if image == "" { return NotSubmitted; }
      var op, rejected := Submit(upload);
      if op == None { return if rejected then NotSubmitted else Failed; }
      if !ValidOperation(cfg, op.value) { return Failed; }
      if hasCallback {
        effects := effects + [Recorded(op.value.text)];
        if !recordSucceeds {
          assert ScanTrace(op.value.text, true, 0) == [Posted, Recorded(op.value.text)];
          return Failed;
        }
      }
      ghost var before := effects;
      var ok := Poll(op.value, answers);
      ghost var n: nat :| PollsUntil(answers, n, ok) && effects == before + Gets(op.value.text, n);
      assert effects == old(effects) + ScanTrace(op.value.text, hasCallback, n);
      return if ok then Analysed else Failed;
    }

    /** Resuming never uploads, and an invalid reference is never sent anywhere. */
    method Resume(op: Reference, answers: seq<Poll>) returns (r: Outcome)
      modifies this
      ensures r != NotSubmitted
      ensures !ValidOperation(cfg, op) ==> r == Failed && effects == old(effects)
      ensures ValidOperation(cfg, op) ==>
        exists n: nat :: PollsUntil(answers, n, r == Analysed) && effects == old(effects) + Gets(op.text, n)
    {
      if !ValidOperation(cfg, op) { return Failed; }
      var ok := Poll(op, answers);
      return if ok then Analysed else Failed;
    }
  }
}

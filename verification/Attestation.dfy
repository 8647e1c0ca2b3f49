/**
 Two-party attestation: SHA-256 over the canonical payload followed by the two signatures.
 Bytes are strings of one character a byte; the canonical payload is ASCII.
 */
module Attestation {
  import opened Wrappers
  import opened Sorting
  import opened Json
  import opened JsonRoundTrip
  import opened Jsonl

  /** collectedAt is the UTC ISO 8601 text; body is a dict. */
  datatype Payload = Payload(
    framework: string,
    controlId: string,
    evidenceType: string,
    sourceAuditRecordId: Option<string>,
    collectedAt: string,
    body: seq<KV<Json>>)

  ghost predicate ValidPayload(p: Payload) { WellFormed(Obj(p.body)) }

  function PayloadFields(p: Payload): seq<KV<Json>> {
    [KV("framework", Str(p.framework)),
     KV("control_id", Str(p.controlId)),
     KV("evidence_type", Str(p.evidenceType)),
     KV("source_audit_record_id", match p.sourceAuditRecordId case None => Null case Some(id) => Str(id)),
     KV("collected_at", Str(p.collectedAt)),
     KV("body", Obj(p.body))]
  }

  /** `EvidencePayload.canonical_json`. */
  function CanonicalJson(p: Payload): string { Print(EVIDENCE, Obj(PayloadFields(p))) }

  function AttestationInput(p: Payload, a: string, b: string): string { CanonicalJson(p) + a + b }

  /** `compute_attestation_hash`; sha is SHA-256. */
  function ComputeHash(sha: string -> string, p: Payload, a: string, b: string): string {
    sha(AttestationInput(p, a, b))
  }

  /** `verify_attestation`. */
  predicate VerifyAttestation(sha: string -> string, p: Payload, a: string, b: string, expected: string) {
    ComputeHash(sha, p, a, b) == expected
  }

  ghost predicate CollisionFree(sha: string -> string) {
    forall x, y :: sha(x) == sha(y) ==> x == y
  }

  /**
   The payloads attest the same facts: every field agrees, and the bodies agree up to
   member order and up to the `str()` of their datetime and bytes leaves.
   */
  ghost predicate SameEvidence(p: Payload, q: Payload) {
    && p.framework == q.framework
    && p.controlId == q.controlId
    && p.evidenceType == q.evidenceType
    && p.sourceAuditRecordId == q.sourceAuditRecordId
    && p.collectedAt == q.collectedAt
    && Plain(EVIDENCE, Obj(p.body)) == Plain(EVIDENCE, Obj(q.body))
  }

  lemma PayloadWellFormed(p: Payload)
    requires ValidPayload(p)
    ensures DistinctKeys(PayloadFields(p)) && WellFormed(Obj(PayloadFields(p)))
  {
    var fs := PayloadFields(p);
    assert DistinctKeys(fs);
    forall i | 0 <= i < |fs| ensures WellFormed(fs[i].val) {}
  }

  lemma PlainPayloadField(p: Payload, i: nat)
    requires ValidPayload(p) && i < 6
    ensures Plain(EVIDENCE, Obj(PayloadFields(p))).Obj?
    ensures Lookup(Plain(EVIDENCE, Obj(PayloadFields(p))).fields, PayloadFields(p)[i].key)
      == Some(Plain(EVIDENCE, PayloadFields(p)[i].val))
  {
    var fs := PayloadFields(p);
    PayloadWellFormed(p);
    LookupPlain(EVIDENCE, fs, fs[i].key);
    LookupIn(fs, fs[i].key);
    assert fs[i] == KV(fs[i].key, fs[i].val) && fs[i] in fs;
  }

  /** The canonical text read back: six members, under these names. */
  lemma CanonicalReads(p: Payload)
    requires ValidPayload(p)
    ensures var r := Loads(CanonicalJson(p));
      && r.Ok? && r.val.Obj? && |r.val.fields| == 6
      && Lookup(r.val.fields, "framework") == Some(Str(p.framework))
      && Lookup(r.val.fields, "control_id") == Some(Str(p.controlId))
      && Lookup(r.val.fields, "evidence_type") == Some(Str(p.evidenceType))
      && Lookup(r.val.fields, "collected_at") == Some(Str(p.collectedAt))
      && Lookup(r.val.fields, "body") == Some(Plain(EVIDENCE, Obj(p.body)))
      && Lookup(r.val.fields, "source_audit_record_id") ==
           Some(if p.sourceAuditRecordId.Some? then Str(p.sourceAuditRecordId.value) else Null)
  {
    PayloadWellFormed(p);
    LoadsPrint(EVIDENCE, Obj(PayloadFields(p)));
    SortIsPermutation(PlainVals(EVIDENCE, PayloadFields(p)));
    SameMultiset(Sort(PlainVals(EVIDENCE, PayloadFields(p))), PlainVals(EVIDENCE, PayloadFields(p)));
    PlainPayloadField(p, 0);
    PlainPayloadField(p, 1);
    PlainPayloadField(p, 2);
    PlainPayloadField(p, 3);
    PlainPayloadField(p, 4);
    PlainPayloadField(p, 5);
  }

  lemma PlainPayloadDetermines(p: Payload, q: Payload, i: nat)
    requires ValidPayload(p) && ValidPayload(q) && i < 6
    requires Plain(EVIDENCE, Obj(PayloadFields(p))) == Plain(EVIDENCE, Obj(PayloadFields(q)))
    ensures Plain(EVIDENCE, PayloadFields(p)[i].val) == Plain(EVIDENCE, PayloadFields(q)[i].val)
  {
    PlainPayloadField(p, i);
    PlainPayloadField(q, i);
    assert PayloadFields(p)[i].key == PayloadFields(q)[i].key;
  }

  lemma SameEvidenceSamePlain(p: Payload, q: Payload)
    requires SameEvidence(p, q)
    ensures Plain(EVIDENCE, Obj(PayloadFields(p))) == Plain(EVIDENCE, Obj(PayloadFields(q)))
  {
    var fs, gs := PayloadFields(p), PayloadFields(q);
    forall i | 0 <= i < 6 ensures PlainVals(EVIDENCE, fs)[i] == PlainVals(EVIDENCE, gs)[i] {
      if i < 5 {
        assert fs[i] == gs[i];
      } else {
        assert fs[5] == KV("body", Obj(p.body)) && gs[5] == KV("body", Obj(q.body));
      }
    }
    assert PlainVals(EVIDENCE, fs) == PlainVals(EVIDENCE, gs);
  }

  lemma PlainPayloadsAgree(p: Payload, q: Payload)
    requires ValidPayload(p) && ValidPayload(q)
    ensures Plain(EVIDENCE, Obj(PayloadFields(p))) == Plain(EVIDENCE, Obj(PayloadFields(q))) <==> SameEvidence(p, q)
  {
    if Plain(EVIDENCE, Obj(PayloadFields(p))) == Plain(EVIDENCE, Obj(PayloadFields(q))) {
      PlainPayloadDetermines(p, q, 0);
      PlainPayloadDetermines(p, q, 1);
      PlainPayloadDetermines(p, q, 2);
      PlainPayloadDetermines(p, q, 3);
      PlainPayloadDetermines(p, q, 4);
      PlainPayloadDetermines(p, q, 5);
    }
    if SameEvidence(p, q) { SameEvidenceSamePlain(p, q); }
  }

  /**
   What the hash binds: two attestations have equal hashes exactly when they attest the
   same evidence and the signatures, A followed by B, are the same bytes.
   */
  lemma HashBinds(sha: string -> string, p: Payload, a: string, b: string, q: Payload, c: string, d: string)
    requires CollisionFree(sha) && ValidPayload(p) && ValidPayload(q)
    ensures ComputeHash(sha, p, a, b) == ComputeHash(sha, q, c, d) <==> SameEvidence(p, q) && a + b == c + d
  {
    PayloadWellFormed(p);
    PayloadWellFormed(q);
    PrintPrefixFree(EVIDENCE, Obj(PayloadFields(p)), Obj(PayloadFields(q)), a + b, c + d);
    PlainPayloadsAgree(p, q);
    assert AttestationInput(p, a, b) == CanonicalJson(p) + (a + b);
    assert AttestationInput(q, c, d) == CanonicalJson(q) + (c + d);
  }

  /** When the A signatures have one length, each signature is bound separately. */
  lemma HashBindsEachSignature(sha: string -> string, p: Payload, a: string, b: string, q: Payload, c: string,
                               d: string)
    requires CollisionFree(sha) && ValidPayload(p) && ValidPayload(q) && |a| == |c|
    ensures VerifyAttestation(sha, q, c, d, ComputeHash(sha, p, a, b)) <==> SameEvidence(p, q) && a == c && b == d
  {
    HashBinds(sha, p, a, b, q, c, d);
    if a + b == c + d {
      assert (a + b)[..|a|] == a && (c + d)[..|c|] == c;
      assert (a + b)[|a|..] == b && (c + d)[|c|..] == d;
    }
  }

  /**
   The module's claim that swapping the attestors breaks corroboration holds exactly when the
   two signatures do not commute; for signatures of one length, when they differ.
   */
  lemma SwapDetected(sha: string -> string, p: Payload, a: string, b: string)
    requires CollisionFree(sha) && ValidPayload(p)
    ensures VerifyAttestation(sha, p, b, a, ComputeHash(sha, p, a, b)) <==> b + a == a + b
    ensures |a| == |b| ==> (VerifyAttestation(sha, p, b, a, ComputeHash(sha, p, a, b)) <==> a == b)
  {
    HashBinds(sha, p, a, b, p, b, a);
    if |a| == |b| { HashBindsEachSignature(sha, p, a, b, p, b, a); }
  }

  /** Signatures of different lengths that do commute: the swap goes unnoticed. */
  lemma SwapUnnoticed(sha: string -> string, p: Payload)
    ensures "s" != "ss" && VerifyAttestation(sha, p, "ss", "s", ComputeHash(sha, p, "s", "ss"))
  {
    assert AttestationInput(p, "s", "ss") == AttestationInput(p, "ss", "s") by {
      assert CanonicalJson(p) + "s" + "ss" == CanonicalJson(p) + "sss";
      assert CanonicalJson(p) + "ss" + "s" == CanonicalJson(p) + "sss";
    }
  }
}

/**
 * Digests (src/evidence/hashing.mjs). SHA-256 is taken as injective: a digest
 * is its preimage under a constructor, so equal digests mean equal texts.
 */
module Hashing {
  import opened Wrappers
  import opened Json
  import JsonMeaning

  datatype Digest = Sha256(text: string)

  /** `proposalDigest` and `workOrderHash`: the whole object, canonically. */
  function DigestOf(v: Value): Digest
    requires !v.Undefined?
  {
    Sha256(CanonicalJson(v).value)
  }

  /** Property access on a plain object. */
  function Get(v: Value, k: string): Value {
    if v.Obj? then Lookup(v.fields, k) else Undefined
  }

  lemma DigestsAgreeIff(a: Value, b: Value)
    requires Wf(a) && Wf(b) && !a.Undefined? && !b.Undefined?
    ensures DigestOf(a) == DigestOf(b) <==> JsonMeaning.Shown(a) == JsonMeaning.Shown(b)
  {
    JsonMeaning.SameTextIff(a, b);
  }

  lemma {:induction false} ShownLookup(fs: seq<Field>, k: string)
    requires WfFields(fs) && k != PROTO
    ensures k in JsonMeaning.ShownFields(fs) <==> !Lookup(fs, k).Undefined?
    ensures k in JsonMeaning.ShownFields(fs) ==> JsonMeaning.ShownFields(fs)[k] == JsonMeaning.Shown(Lookup(fs, k))
  {
    if fs != [] {
      ShownLookup(fs[1..], k);
      if fs[0].key == k {
        assert k !in JsonMeaning.ShownFields(fs[1..]);
      }
    }
  }

  /** A digest fixes every string field of the object it was taken from. */
  lemma DigestFixesStrings(a: Value, b: Value, k: string, s: string)
    requires Wf(a) && Wf(b) && a.Obj? && !b.Undefined? && k != PROTO
    requires DigestOf(a) == DigestOf(b)
    ensures b.Obj?
    ensures Get(a, k) == Str(s) <==> Get(b, k) == Str(s)
  {
    DigestsAgreeIff(a, b);
    ShownLookup(a.fields, k);
    ShownLookup(b.fields, k);
  }
}

/**
 The AP2 mandate export of an evidence bundle and its way back: exactly which fields
 survive the trip, and exactly which edits the mandate digest detects.
 */
module Ap2Adapter {
  import opened Text
  import opened Json
  import opened JsonDict
  import opened Records

  const AP2_VERSION := "agents-to-payments/ap2-mandate/v1"

  /** The exporter's arguments; an empty optional id stands for one not given. */
  datatype Terms = Terms(
    payer: string, payee: string, token: string, amount: string, chainId: int, policyId: string,
    merchantRef: string, expiresAt: string,
    intentId: string, cartId: string, paymentMandateId: string, userGoalHash: string)

  /** `a or b` on strings. */
  function Or(a: string, b: string): string
  {
    if a == "" then b else a
  }

  function First16(s: string): (r: string)
    ensures r <= s && |r| == if |s| < 16 then |s| else 16
  {
    if |s| <= 16 then s else s[..16]
  }

  // -------------------------------------------------------------------------------- export

  function IntentFields(h: Sha, b: Bundle, t: Terms, bundleId: string, now: string): seq<Field>
  {
    [ Field("intent_id", Str(Or(t.intentId, "intent-" + First16(bundleId)))),
      Field("user_goal_hash", Str(Or(t.userGoalHash, h(b.taskId)))),
      Field("created_at", Str(Or(b.createdAt, now))),
      Field("human_present", Bool(false)) ]
  }

  function CartFields(b: Bundle, t: Terms, bundleId: string): seq<Field>
  {
    [ Field("cart_id", Str(Or(t.cartId, "cart-" + First16(bundleId)))),
      Field("merchant_ref", Str(t.merchantRef)),
      Field("line_item_hashes", Arr(Strs(b.receiptHashes))),
      Field("task_contract_hash", Str(b.taskContractHash)) ]
  }

  function PaymentFields(t: Terms, bundleId: string): seq<Field>
  {
    [ Field("payment_mandate_id", Str(Or(t.paymentMandateId, "pay-" + First16(bundleId)))),
      Field("payer", Str(t.payer)),
      Field("payee", Str(t.payee)),
      Field("token", Str(t.token)),
      Field("amount", Str(t.amount)),
      Field("chain_id", Int(t.chainId)),
      Field("policy_id", Str(t.policyId)),
      Field("expires_at", Str(t.expiresAt)) ]
  }

  /** The mandate before its digest is attached. */
  function Unsealed(h: Sha, b: Bundle, t: Terms, now: string): seq<Field>
  {
    var bundleId := Or(b.bundleId, b.taskId);
    [ Field("ap2_version", Str(AP2_VERSION)),
      Field("intent_mandate", Obj(IntentFields(h, b, t, bundleId, now))),
      Field("cart_mandate", Obj(CartFields(b, t, bundleId))),
      Field("payment_mandate", Obj(PaymentFields(t, bundleId))),
      Field("karma_evidence_digest", Str(BundleHash(h, b))),
      Field("karma_bundle_id", Str(bundleId)),
      Field("karma_task_id", Str(b.taskId)),
      Field("karma_schema_version", Str(b.schemaVersion)) ]
  }

  const SKIPPED: set<string> := {"mandate_signature", "mandate_digest"}

  /** `ap2_mandate_digest`: over everything but the signature and the digest itself. */
  function MandateDigest(h: Sha, m: seq<Field>): string
  {
    h(Canonical(Obj(Without(m, SKIPPED))))
  }

  /** `to_ap2_mandate`; `now` is the clock reading used when the bundle has no time. */
  function ToMandate(h: Sha, b: Bundle, t: Terms, now: string): seq<Field>
  {
    var m := Unsealed(h, b, t, now);
    m + [Field("mandate_digest", Str(MandateDigest(h, m)))]
  }

  // ------------------------------------------------------------------------------- checking

  /** `str(v)`. Of a list or a dict only the first character is kept; no digest begins with it. */
  function StrOf(v: Value): string
  {
    match v
    case Null => "None"
    case Bool(b) => if b then "True" else "False"
    case Int(n) => Dec(n)
    case Str(s) => s
    case Arr(_) => "["
    case Obj(_) => "{"
  }

  /** `str(m.get(key, ""))`. */
  function Declared(m: seq<Field>, key: string): string
  {
    match Lookup(m, key)
    case None => ""
    case Some(v) => StrOf(v)
  }

  /** `str.lower` on ASCII; no other character has a lower-case hex digit for its lower case. */
  function LowerChar(c: char): char
  {
    if 'A' <= c <= 'Z' then (c as int + 32) as char else c
  }

  function Lower(s: string): (r: string)
    ensures |r| == |s| && forall i :: 0 <= i < |s| ==> r[i] == LowerChar(s[i])
  {
    seq(|s|, i requires 0 <= i < |s| => LowerChar(s[i]))
  }

  /** Capital letters in a digest do not matter. */
  lemma CaseDoesNotMatter(digest: string, s: string)
    requires IsHex64(digest) && |s| == 64
    requires forall i :: 0 <= i < 64 ==>
               s[i] == digest[i] || ('A' <= s[i] <= 'F' && s[i] as int + 32 == digest[i] as int)
    ensures Lower(s) == digest
  {
  }

  lemma HexIsLower(s: string)
    requires IsHex64(s)
    ensures Lower(s) == s
  {
  }

  /** `verify_ap2_digest_consistency`, its boolean. */
  predicate DigestConsistent(h: Sha, m: seq<Field>, recomputed: Option<Bundle>)
  {
    && (recomputed.Some? ==> BundleHash(h, recomputed.value) == Lower(Declared(m, "karma_evidence_digest")))
    && (Declared(m, "mandate_digest") != "" ==> MandateDigest(h, m) == Lower(Declared(m, "mandate_digest")))
  }

  lemma {:induction false} WithoutLookup(d: seq<Field>, skip: set<string>, key: string)
    ensures Lookup(Without(d, skip), key) == if key in skip then None else Lookup(d, key)
  {
    if d != [] {
      WithoutLookup(d[1..], skip, key);
      if d[0].key !in skip {
        assert Without(d, skip)[1..] == Without(d[1..], skip);
      }
    }
  }

  lemma {:induction false} WithoutMembers(d: seq<Field>, skip: set<string>)
    ensures forall f :: f in Without(d, skip) ==> f in d
  {
    if d != [] {
      WithoutMembers(d[1..], skip);
    }
  }

  lemma {:induction false} WithoutDistinct(d: seq<Field>, skip: set<string>)
    requires DistinctKeys(d)
    ensures DistinctKeys(Without(d, skip))
  {
    if d != [] {
      WithoutDistinct(d[1..], skip);
      WithoutMembers(d[1..], skip);
      var rest := Without(d[1..], skip);
      forall i | 0 <= i < |rest|
        ensures rest[i].key != d[0].key
      {
        assert rest[i] in rest && rest[i] in d[1..];
      }
    }
  }

  lemma {:induction false} WithoutSnoc(d: seq<Field>, f: Field, skip: set<string>)
    requires f.key in skip
    ensures Without(d + [f], skip) == Without(d, skip)
  {
    if d == [] {
      assert d + [f] == [f];
    } else {
      assert (d + [f])[1..] == d[1..] + [f];
      WithoutSnoc(d[1..], f, skip);
    }
  }

  lemma {:induction false} LookupSnoc(d: seq<Field>, f: Field, key: string)
    ensures Lookup(d + [f], key) == if Lookup(d, key).Some? then Lookup(d, key) else if f.key == key then Some(f.value) else None
  {
    if d == [] {
      assert d + [f] == [f];
    } else {
      assert (d + [f])[1..] == d[1..] + [f];
      LookupSnoc(d[1..], f, key);
    }
  }

  // ------------------------------------------------------------------------------ dict facts

  lemma UnsealedKeys(h: Sha, b: Bundle, t: Terms, now: string)
    ensures DistinctKeys(Unsealed(h, b, t, now))
    ensures forall f :: f in Unsealed(h, b, t, now) ==> f.key !in SKIPPED
  {
    hide IntentFields, CartFields, PaymentFields, BundleHash;
  }

  /** What a reader finds in an exported mandate. */
  lemma MandateLookups(h: Sha, b: Bundle, t: Terms, now: string)
    ensures var m := ToMandate(h, b, t, now);
            var bundleId := Or(b.bundleId, b.taskId);
            && Lookup(m, "ap2_version") == Some(Str("agents-to-payments/ap2-mandate/v1"))
            && Lookup(m, "intent_mandate") == Some(Obj(IntentFields(h, b, t, bundleId, now)))
            && Lookup(m, "cart_mandate") == Some(Obj(CartFields(b, t, bundleId)))
            && Lookup(m, "payment_mandate") == Some(Obj(PaymentFields(t, bundleId)))
            && Lookup(m, "karma_evidence_digest") == Some(Str(BundleHash(h, b)))
            && Lookup(m, "karma_bundle_id") == Some(Str(bundleId))
            && Lookup(m, "karma_task_id") == Some(Str(b.taskId))
            && Lookup(m, "karma_schema_version") == Some(Str(b.schemaVersion))
            && Lookup(m, "mandate_digest") == Some(Str(MandateDigest(h, Unsealed(h, b, t, now))))
            && Lookup(m, "mandate_signature") == None
  {
    hide IntentFields, CartFields, PaymentFields, BundleHash, MandateDigest, Lookup;
    var d := Unsealed(h, b, t, now);
    var f := Field("mandate_digest", Str(MandateDigest(h, d)));
    UnsealedKeys(h, b, t, now);
    LookupAt(d, 0);
    LookupAt(d, 1);
    LookupAt(d, 2);
    LookupAt(d, 3);
    LookupAt(d, 4);
    LookupAt(d, 5);
    LookupAt(d, 6);
    LookupAt(d, 7);
    LookupAbsent(d, "mandate_digest");
    LookupAbsent(d, "mandate_signature");
    LookupSnoc(d, f, "ap2_version");
    LookupSnoc(d, f, "intent_mandate");
    LookupSnoc(d, f, "cart_mandate");
    LookupSnoc(d, f, "payment_mandate");
    LookupSnoc(d, f, "karma_evidence_digest");
    LookupSnoc(d, f, "karma_bundle_id");
    LookupSnoc(d, f, "karma_task_id");
    LookupSnoc(d, f, "karma_schema_version");
    LookupSnoc(d, f, "mandate_digest");
    LookupSnoc(d, f, "mandate_signature");
  }

  // ---------------------------------------------------------------------- what is detected

  /** The digest written into a mandate is the digest of that mandate. */
  lemma SealCoversMandate(h: Sha, b: Bundle, t: Terms, now: string)
    ensures MandateDigest(h, ToMandate(h, b, t, now)) == MandateDigest(h, Unsealed(h, b, t, now))
  {
    hide Unsealed;
    var d := Unsealed(h, b, t, now);
    WithoutSnoc(d, Field("mandate_digest", Str(MandateDigest(h, d))), SKIPPED);
  }

  /** Every exported mandate is consistent with its bundle. */
  lemma ExportIsConsistent(h: Sha, b: Bundle, t: Terms, now: string)
    requires HexValued(h)
    ensures DigestConsistent(h, ToMandate(h, b, t, now), Some(b))
  {
    hide Unsealed, ToMandate, BundleText, Canonical, Lookup, Without;
    MandateLookups(h, b, t, now);
    SealCoversMandate(h, b, t, now);
    HexIsLower(h(BundleText(b)));
    HexIsLower(MandateDigest(h, Unsealed(h, b, t, now)));
  }

  /** Attaching a signature afterwards changes nothing. */
  lemma SignatureKeepsConsistency(h: Sha, m: seq<Field>, signature: Value, recomputed: Option<Bundle>)
    ensures DigestConsistent(h, m + [Field("mandate_signature", signature)], recomputed) <==> DigestConsistent(h, m, recomputed)
  {
    hide BundleHash, Canonical, Lookup;
    var f := Field("mandate_signature", signature);
    WithoutSnoc(m, f, SKIPPED);
    LookupSnoc(m, f, "mandate_digest");
    LookupSnoc(m, f, "karma_evidence_digest");
  }

  /**
   Any dict that still carries an exported mandate's digest: it is accepted when its
   digested part is the exported one, and otherwise only through a collision.
   */
  lemma EditsDetected(h: Sha, b: Bundle, t: Terms, now: string, edited: seq<Field>)
    requires HexValued(h) && DistinctKeys(edited)
    requires Declared(edited, "mandate_digest") == MandateDigest(h, Unsealed(h, b, t, now))
    ensures var a, c := Without(edited, SKIPPED), Without(ToMandate(h, b, t, now), SKIPPED);
            && (SameDict(a, c) ==> DigestConsistent(h, edited, None) && DigestConsistent(h, edited, Some(b)))
            && (DigestConsistent(h, edited, None) ==> SameDict(a, c) || Collides(h, Canonical(Obj(a)), Canonical(Obj(c))))
            && (DigestConsistent(h, edited, Some(b)) ==> SameDict(a, c) || Collides(h, Canonical(Obj(a)), Canonical(Obj(c))))
  {
    hide Unsealed, ToMandate, Canonical, Lookup, SameDict, Declared, Without;
    var m := ToMandate(h, b, t, now);
    var a, c := Without(edited, SKIPPED), Without(m, SKIPPED);
    SealCoversMandate(h, b, t, now);
    var seal := MandateDigest(h, Unsealed(h, b, t, now));
    assert IsHex64(seal);
    HexIsLower(seal);
    WithoutDistinct(edited, SKIPPED);
    MandateDistinct(h, b, t, now);
    WithoutDistinct(m, SKIPPED);
    CanonicalIffSameDict(a, c);
    if SameDict(a, c) {
      SameEvidenceDigest(h, b, t, now, edited);
    }
  }

  /** The evidence digest is part of what the mandate digest covers. */
  lemma SameEvidenceDigest(h: Sha, b: Bundle, t: Terms, now: string, edited: seq<Field>)
    requires HexValued(h) && DistinctKeys(edited) && SameDict(Without(edited, SKIPPED), Without(ToMandate(h, b, t, now), SKIPPED))
    ensures Lower(Declared(edited, "karma_evidence_digest")) == BundleHash(h, b)
  {
    hide ToMandate, Unsealed, BundleText, Without, Lookup, SameDict, MandateDigest, IntentFields, CartFields, PaymentFields;
    MandateLookups(h, b, t, now);
    UncoveredKey();
    MandateDistinct(h, b, t, now);
    SameLookup(edited, ToMandate(h, b, t, now), SKIPPED, "karma_evidence_digest", BundleHash(h, b));
    assert IsHex64(h(BundleText(b)));
    HexIsLower(h(BundleText(b)));
  }

  lemma UncoveredKey()
    ensures "karma_evidence_digest" !in SKIPPED
  {
    assert "karma_evidence_digest"[0] == 'k';
  }

  /** A text under a key that both dicts keep is the same in both. */
  lemma SameLookup(a: seq<Field>, b: seq<Field>, skip: set<string>, key: string, text: string)
    requires DistinctKeys(a) && DistinctKeys(b) && SameDict(Without(a, skip), Without(b, skip))
    requires key !in skip && Lookup(b, key) == Some(Str(text))
    ensures Lookup(a, key) == Some(Str(text))
  {
    hide Lookup, Without, Ordered, DistinctKeys;
    WithoutDistinct(a, skip);
    WithoutDistinct(b, skip);
    WithoutLookup(a, skip, key);
    WithoutLookup(b, skip, key);
    LookupOrdered(Without(a, skip), key);
    LookupOrdered(Without(b, skip), key);
  }

  lemma MandateDistinct(h: Sha, b: Bundle, t: Terms, now: string)
    ensures DistinctKeys(ToMandate(h, b, t, now))
  {
    hide MandateDigest;
    UnsealedKeys(h, b, t, now);
    var d := Unsealed(h, b, t, now);
    hide Unsealed;
    forall i | 0 <= i < |d|
      ensures d[i].key != "mandate_digest"
    {
      assert d[i] in d;
    }
  }

  /** A mandate is consistent with one bundle at most, whatever else it says, unless two bundles collide. */
  lemma OneBundleOnly(h: Sha, m: seq<Field>, b: Bundle, c: Bundle)
    requires DigestConsistent(h, m, Some(b)) && DigestConsistent(h, m, Some(c))
    ensures b == c || Collides(h, BundleText(b), BundleText(c))
  {
    hide BundleText, Declared, MandateDigest;
    BundleHashCommits(h, b, c);
  }

  /** An exported mandate passes against its own bundle and no other, unless the two collide. */
  lemma WrongBundleDetected(h: Sha, b: Bundle, t: Terms, now: string, other: Bundle)
    requires HexValued(h)
    ensures DigestConsistent(h, ToMandate(h, b, t, now), Some(other)) ==>
              other == b || Collides(h, BundleText(other), BundleText(b))
    ensures DigestConsistent(h, ToMandate(h, b, t, now), Some(b))
  {
    hide ToMandate, DigestConsistent, BundleText;
    ExportIsConsistent(h, b, t, now);
    if DigestConsistent(h, ToMandate(h, b, t, now), Some(other)) {
      OneBundleOnly(h, ToMandate(h, b, t, now), other, b);
    }
  }

  /**
   A mandate that lost its own digest is still checked against the bundle: it passes
   exactly if the evidence digest it names is the bundle's, up to case.
   */
  lemma EvidenceDigestChecked(h: Sha, m: seq<Field>, b: Bundle)
    requires Lookup(m, "mandate_digest") == None || Lookup(m, "mandate_digest") == Some(Str(""))
    ensures DigestConsistent(h, m, Some(b)) <==> Lower(Declared(m, "karma_evidence_digest")) == BundleHash(h, b)
  {
    hide BundleHash, Lookup, MandateDigest;
  }

  /**
   The mandate digest is checked exactly if there is one: a missing or empty one passes,
   and one that is null, a truth value, a list or a dict never does.
   */
  lemma UnsealedIsNotChecked(h: Sha, m: seq<Field>)
    requires HexValued(h)
    ensures var d := Lookup(m, "mandate_digest");
            && (d == None || d == Some(Str("")) ==> DigestConsistent(h, m, None))
            && (d.Some? && !d.value.Str? && !d.value.Int? ==> !DigestConsistent(h, m, None))
            && (d.Some? && d != Some(Str("")) ==>
                  (DigestConsistent(h, m, None) <==> MandateDigest(h, m) == Lower(StrOf(d.value))))
  {
    hide Canonical, Lookup, Without, Dec;
    assert IsHex64(MandateDigest(h, m));
  }

  // --------------------------------------------------------------------------------- import

  datatype Imported = Imported(
    bundleId: string, taskId: string, taskContractHash: string, receiptHashes: seq<string>,
    finalResultHash: string, evidenceStorageRefs: seq<string>, createdAt: string, signer: string, signature: string,
    schemaVersion: string, traceId: string, evidenceDigest: string, payment: seq<Field>, merchantRef: string)

  datatype Import = Accepted(value: Imported) | MissingKeys(part: string) | BadShape | BadDigest

  const TOP_KEYS: seq<string> := ["ap2_version", "intent_mandate", "cart_mandate", "payment_mandate", "karma_evidence_digest"]
  const INTENT_KEYS: seq<string> := ["intent_id", "user_goal_hash", "created_at"]
  const CART_KEYS: seq<string> := ["cart_id", "merchant_ref", "line_item_hashes"]
  const PAYMENT_KEYS: seq<string> :=
    ["payment_mandate_id", "payer", "payee", "token", "amount", "chain_id", "policy_id", "expires_at"]

  predicate HasKeys(d: seq<Field>, keys: seq<string>)
  {
    forall i :: 0 <= i < |keys| ==> Lookup(d, keys[i]).Some?
  }

  /**
   How `int` first reads a character: ASCII as it is, another blank as ' ', another
   decimal digit as the ASCII one, and anything else as '?'.
   */
  type Reading = char -> char

  ghost predicate PythonReading(ascii: Reading)
  {
    forall c :: if c < 127 as char then ascii(c) == c else ascii(c) == ' ' || IsDigit(ascii(c)) || ascii(c) == '?'
  }

  function Read(ascii: Reading, s: string): (r: string)
    ensures |r| == |s| && forall i :: 0 <= i < |s| ==> r[i] == ascii(s[i])
  {
    seq(|s|, i requires 0 <= i < |s| => ascii(s[i]))
  }

  predicate IsBlank(c: char)
  {
    c == ' ' || 9 as char <= c <= 13 as char
  }

  function SkipBlanks(s: string): string
  {
    if s != "" && IsBlank(s[0]) then SkipBlanks(s[1..]) else s
  }

  function DropBlanks(s: string): string
  {
    if s != "" && IsBlank(s[|s| - 1]) then DropBlanks(s[..|s| - 1]) else s
  }

  /** Two underscores in a row, ending at `i`. */
  predicate Doubled(s: string, i: nat)
    requires i < |s|
  {
    i > 0 && s[i] == '_' && s[i - 1] == '_'
  }

  /** Hex digits with single underscores between them, as `int(s, 16)` reads them. */
  predicate Grouped(s: string)
  {
    && s != "" && IsHexDigit(s[0]) && IsHexDigit(s[|s| - 1])
    && (forall i :: 0 <= i < |s| ==> IsHexDigit(s[i]) || s[i] == '_')
    && (forall i :: 0 <= i < |s| ==> !Doubled(s, i))
  }

  /** A number without blanks around it: sign, prefix, and grouped digits. */
  predicate HexNumber(s: string)
  {
    var t := if s != "" && (s[0] == '+' || s[0] == '-') then s[1..] else s;
    || Grouped(t)
    || ("0x" <= t && (Grouped(t[2..]) || (|t| > 2 && t[2] == '_' && Grouped(t[3..]))))
  }

  /** `int(s, 16)` succeeds on a text without capitals. */
  predicate ReadsAsHex(ascii: Reading, s: string)
  {
    HexNumber(DropBlanks(SkipBlanks(Read(ascii, s))))
  }

  /** `_is_hex64`. Texts that `int` accepts have capitals in ASCII only. */
  predicate LooksLikeHex64(ascii: Reading, s: string)
  {
    |s| == 64 && ReadsAsHex(ascii, s) && s == Lower(s)
  }

  /** The three parts, in the order they are looked at: the first that is no dict or lacks a key ends the import. */
  function PartFault(m: seq<Field>, part: string, keys: seq<string>): Option<Import>
  {
    match Lookup(m, part)
    case Some(Obj(d)) => if HasKeys(d, keys) then None else Some(MissingKeys(part))
    case _ => Some(BadShape)
  }

  function Part(m: seq<Field>, part: string): seq<Field>
  {
    match Lookup(m, part)
    case Some(Obj(d)) => d
    case _ => []
  }

  /** `from_ap2_mandate` on mandates whose other scalar fields are strings. */
  function FromMandate(h: Sha, ascii: Reading, m: seq<Field>, now: string): Import
  {
    if !HasKeys(m, TOP_KEYS) then MissingKeys("mandate")
    else if PartFault(m, "intent_mandate", INTENT_KEYS).Some? then PartFault(m, "intent_mandate", INTENT_KEYS).value
    else if PartFault(m, "cart_mandate", CART_KEYS).Some? then PartFault(m, "cart_mandate", CART_KEYS).value
    else if PartFault(m, "payment_mandate", PAYMENT_KEYS).Some? then PartFault(m, "payment_mandate", PAYMENT_KEYS).value
    else
      var intent, cart, payment := Part(m, "intent_mandate"), Part(m, "cart_mandate"), Part(m, "payment_mandate");
      var digest := Declared(m, "karma_evidence_digest");
      if !LooksLikeHex64(ascii, digest) then BadDigest
      else
        var hashes := GetStrs(cart, "line_item_hashes");
        var taskId := Or(GetStr(m, "karma_task_id"), GetStr(intent, "intent_id"));
        Accepted(Imported(
          Or(GetStr(m, "karma_bundle_id"), GetStr(cart, "cart_id")),
          taskId,
          Or(GetStr(cart, "task_contract_hash"), h(taskId)),
          hashes,
          if hashes == [] then digest else hashes[|hashes| - 1],
          [],
          Or(GetStr(intent, "created_at"), now),
          GetStr(payment, "payer"),
          GetStr(m, "mandate_signature"),
          Or(GetStr(m, "karma_schema_version"), BUNDLE_SCHEMA),
          "",
          digest,
          payment,
          GetStr(cart, "merchant_ref")))
  }

  ghost predicate Has(d: seq<Field>, key: string)
  {
    Lookup(d, key).Some?
  }

  /** The part is a dict. */
  ghost predicate IsDict(m: seq<Field>, part: string)
  {
    Lookup(m, part).Some? && Lookup(m, part).value.Obj?
  }

  /** Exactly which dicts are imported: every required key is there, the parts are dicts, the digest looks right. */
  lemma ImportsExactly(h: Sha, ascii: Reading, m: seq<Field>, now: string)
    ensures var intent, cart, payment := Part(m, "intent_mandate"), Part(m, "cart_mandate"), Part(m, "payment_mandate");
            FromMandate(h, ascii, m, now).Accepted? <==>
            && Has(m, "ap2_version") && Has(m, "karma_evidence_digest")
            && IsDict(m, "intent_mandate") && IsDict(m, "cart_mandate") && IsDict(m, "payment_mandate")
            && Has(intent, "intent_id") && Has(intent, "user_goal_hash") && Has(intent, "created_at")
            && Has(cart, "cart_id") && Has(cart, "merchant_ref") && Has(cart, "line_item_hashes")
            && Has(payment, "payment_mandate_id") && Has(payment, "payer") && Has(payment, "payee")
            && Has(payment, "token") && Has(payment, "amount") && Has(payment, "chain_id")
            && Has(payment, "policy_id") && Has(payment, "expires_at")
            && LooksLikeHex64(ascii, Declared(m, "karma_evidence_digest"))
  {
    hide Lookup, LooksLikeHex64, GetStr, GetStrs, Declared, Or, HasKeys;
    TopKeys(m);
    IntentKeys(Part(m, "intent_mandate"));
    CartKeys(Part(m, "cart_mandate"));
    PaymentKeys(Part(m, "payment_mandate"));
  }

  lemma TopKeys(d: seq<Field>)
    ensures HasKeys(d, TOP_KEYS) <==>
            && Has(d, "ap2_version") && Has(d, "intent_mandate") && Has(d, "cart_mandate") && Has(d, "payment_mandate")
            && Has(d, "karma_evidence_digest")
  {
    hide Lookup;
    assert |TOP_KEYS| == 5;
    assert TOP_KEYS[0] == "ap2_version" && TOP_KEYS[1] == "intent_mandate" && TOP_KEYS[2] == "cart_mandate";
    assert TOP_KEYS[3] == "payment_mandate" && TOP_KEYS[4] == "karma_evidence_digest";
  }

  lemma IntentKeys(d: seq<Field>)
    ensures HasKeys(d, INTENT_KEYS) <==> Has(d, "intent_id") && Has(d, "user_goal_hash") && Has(d, "created_at")
  {
    hide Lookup;
    assert |INTENT_KEYS| == 3;
    assert INTENT_KEYS[0] == "intent_id" && INTENT_KEYS[1] == "user_goal_hash" && INTENT_KEYS[2] == "created_at";
  }

  lemma CartKeys(d: seq<Field>)
    ensures HasKeys(d, CART_KEYS) <==> Has(d, "cart_id") && Has(d, "merchant_ref") && Has(d, "line_item_hashes")
  {
    hide Lookup;
    assert |CART_KEYS| == 3;
    assert CART_KEYS[0] == "cart_id" && CART_KEYS[1] == "merchant_ref" && CART_KEYS[2] == "line_item_hashes";
  }

  lemma PaymentKeys(d: seq<Field>)
    ensures HasKeys(d, PAYMENT_KEYS) <==>
            && Has(d, "payment_mandate_id") && Has(d, "payer") && Has(d, "payee") && Has(d, "token")
            && Has(d, "amount") && Has(d, "chain_id") && Has(d, "policy_id") && Has(d, "expires_at")
  {
    hide Lookup;
    assert |PAYMENT_KEYS| == 8;
    assert PAYMENT_KEYS[0] == "payment_mandate_id" && PAYMENT_KEYS[1] == "payer" && PAYMENT_KEYS[2] == "payee";
    assert PAYMENT_KEYS[3] == "token" && PAYMENT_KEYS[4] == "amount" && PAYMENT_KEYS[5] == "chain_id";
    assert PAYMENT_KEYS[6] == "policy_id" && PAYMENT_KEYS[7] == "expires_at";
  }

  /** Signing a mandate changes nothing of its import but the signature, which survives. */
  lemma SignatureSurvives(h: Sha, ascii: Reading, m: seq<Field>, now: string, signature: string)
    requires FromMandate(h, ascii, m, now).Accepted? && Lookup(m, "mandate_signature") == None
    ensures FromMandate(h, ascii, m + [Field("mandate_signature", Str(signature))], now) ==
            Accepted(FromMandate(h, ascii, m, now).value.(signature := signature))
  {
    hide Lookup, LooksLikeHex64, Or, GetStrs;
    var f := Field("mandate_signature", Str(signature));
    var signed := m + [f];
    SameReadings(m, f);
    assert HasKeys(signed, TOP_KEYS) <==> HasKeys(m, TOP_KEYS) by {
      hide HasKeys;
      TopKeys(m);
      TopKeys(signed);
    }
    LookupSnoc(m, f, "mandate_signature");
  }

  /** The other keys that an import reads do not see the signature. */
  lemma SameReadings(m: seq<Field>, f: Field)
    requires f.key == "mandate_signature"
    ensures var s := m + [f];
            && Lookup(s, "ap2_version") == Lookup(m, "ap2_version")
            && Lookup(s, "intent_mandate") == Lookup(m, "intent_mandate")
            && Lookup(s, "cart_mandate") == Lookup(m, "cart_mandate")
            && Lookup(s, "payment_mandate") == Lookup(m, "payment_mandate")
            && Lookup(s, "karma_evidence_digest") == Lookup(m, "karma_evidence_digest")
            && Lookup(s, "karma_bundle_id") == Lookup(m, "karma_bundle_id")
            && Lookup(s, "karma_task_id") == Lookup(m, "karma_task_id")
            && Lookup(s, "karma_schema_version") == Lookup(m, "karma_schema_version")
  {
    hide Lookup;
    LookupSnoc(m, f, "ap2_version");
    LookupSnoc(m, f, "intent_mandate");
    LookupSnoc(m, f, "cart_mandate");
    LookupSnoc(m, f, "payment_mandate");
    LookupSnoc(m, f, "karma_evidence_digest");
    LookupSnoc(m, f, "karma_bundle_id");
    LookupSnoc(m, f, "karma_task_id");
    LookupSnoc(m, f, "karma_schema_version");
  }

  /** Where an import takes its values from, and what stands in for a missing or empty one. */
  lemma ImportedFrom(h: Sha, ascii: Reading, m: seq<Field>, now: string)
    requires FromMandate(h, ascii, m, now).Accepted?
    ensures var r := FromMandate(h, ascii, m, now).value;
            var intent, cart, payment := Part(m, "intent_mandate"), Part(m, "cart_mandate"), Part(m, "payment_mandate");
            && (GetStr(m, "karma_bundle_id") != "" ==> r.bundleId == GetStr(m, "karma_bundle_id"))
            && (GetStr(m, "karma_bundle_id") == "" ==> r.bundleId == GetStr(cart, "cart_id"))
            && (GetStr(m, "karma_task_id") != "" ==> r.taskId == GetStr(m, "karma_task_id"))
            && (GetStr(m, "karma_task_id") == "" ==> r.taskId == GetStr(intent, "intent_id"))
            && (GetStr(cart, "task_contract_hash") != "" ==> r.taskContractHash == GetStr(cart, "task_contract_hash"))
            && (GetStr(cart, "task_contract_hash") == "" ==> r.taskContractHash == h(r.taskId))
            && r.receiptHashes == GetStrs(cart, "line_item_hashes")
            && (r.receiptHashes == [] ==> r.finalResultHash == r.evidenceDigest)
            && (r.receiptHashes != [] ==> r.finalResultHash == r.receiptHashes[|r.receiptHashes| - 1])
            && (GetStr(intent, "created_at") != "" ==> r.createdAt == GetStr(intent, "created_at"))
            && (GetStr(intent, "created_at") == "" ==> r.createdAt == now)
            && r.signer == GetStr(payment, "payer") && r.merchantRef == GetStr(cart, "merchant_ref")
            && (GetStr(m, "karma_schema_version") == "" ==> r.schemaVersion == "karma.ta.evidence_bundle.v1")
            && r.evidenceDigest == Declared(m, "karma_evidence_digest") && r.payment == payment
  {
    hide Lookup, LooksLikeHex64, GetStr, GetStrs, Declared, HasKeys;
  }

  // ----------------------------------------------------------------------------- round trip

  lemma IntentLookups(h: Sha, b: Bundle, t: Terms, bundleId: string, now: string)
    ensures var d := IntentFields(h, b, t, bundleId, now);
            && HasKeys(d, INTENT_KEYS)
            && GetStr(d, "intent_id") == Or(t.intentId, "intent-" + First16(bundleId))
            && GetStr(d, "user_goal_hash") == Or(t.userGoalHash, h(b.taskId))
            && Lookup(d, "human_present") == Some(Bool(false))
            && GetStr(d, "created_at") == Or(b.createdAt, now)
  {
    hide Or, First16, Lookup;
    var d := IntentFields(h, b, t, bundleId, now);
    assert DistinctKeys(d);
    LookupAt(d, 0);
    LookupAt(d, 1);
    LookupAt(d, 2);
    LookupAt(d, 3);
  }

  lemma CartLookups(b: Bundle, t: Terms, bundleId: string)
    ensures var d := CartFields(b, t, bundleId);
            && HasKeys(d, CART_KEYS)
            && GetStr(d, "cart_id") == Or(t.cartId, "cart-" + First16(bundleId))
            && GetStr(d, "merchant_ref") == t.merchantRef
            && GetStrs(d, "line_item_hashes") == b.receiptHashes
            && GetStr(d, "task_contract_hash") == b.taskContractHash
  {
    hide Or, First16, Lookup, Strs, UnStrs;
    var d := CartFields(b, t, bundleId);
    assert DistinctKeys(d);
    LookupAt(d, 0);
    LookupAt(d, 1);
    LookupAt(d, 2);
    LookupAt(d, 3);
    StrsNormal(b.receiptHashes);
  }

  lemma PaymentDistinct(t: Terms, bundleId: string)
    ensures DistinctKeys(PaymentFields(t, bundleId))
  {
    hide Or, First16;
    var d := PaymentFields(t, bundleId);
    assert d[1].key[3] == 'e' && d[2].key[3] == 'e' && d[1].key[4] == 'r' && d[2].key[4] == 'e';
  }

  lemma PaymentKeysPresent(t: Terms, bundleId: string)
    ensures HasKeys(PaymentFields(t, bundleId), PAYMENT_KEYS)
  {
    hide Or, First16, Lookup;
    var d := PaymentFields(t, bundleId);
    PaymentDistinct(t, bundleId);
    forall i | 0 <= i < |PAYMENT_KEYS|
      ensures Lookup(d, PAYMENT_KEYS[i]).Some?
    {
      LookupAt(d, i);
      assert d[i].key == PAYMENT_KEYS[i];
    }
  }

  lemma PaymentLookups(t: Terms, bundleId: string)
    ensures var d := PaymentFields(t, bundleId);
            && GetStr(d, "payer") == t.payer && GetStr(d, "payee") == t.payee
            && GetStr(d, "token") == t.token && GetStr(d, "amount") == t.amount && GetInt(d, "chain_id") == t.chainId
            && GetStr(d, "policy_id") == t.policyId && GetStr(d, "expires_at") == t.expiresAt
            && GetStr(d, "payment_mandate_id") == Or(t.paymentMandateId, "pay-" + First16(bundleId))
  {
    hide Or, First16, Lookup;
    var d := PaymentFields(t, bundleId);
    PaymentDistinct(t, bundleId);
    LookupAt(d, 0);
    LookupAt(d, 1);
    LookupAt(d, 2);
    LookupAt(d, 3);
    LookupAt(d, 4);
    LookupAt(d, 5);
    LookupAt(d, 6);
    LookupAt(d, 7);
  }

  /** The ids an export makes up when none are given, and what else it fills in by itself. */
  lemma ExportSays(h: Sha, b: Bundle, t: Terms, now: string, head: string)
    requires var id := if b.bundleId != "" then b.bundleId else b.taskId;
             head <= id && |head| == if |id| < 16 then |id| else 16
    ensures var m := ToMandate(h, b, t, now);
            var intent, cart, payment := Part(m, "intent_mandate"), Part(m, "cart_mandate"), Part(m, "payment_mandate");
            && GetStr(m, "ap2_version") == "agents-to-payments/ap2-mandate/v1"
            && GetStr(intent, "intent_id") == (if t.intentId != "" then t.intentId else "intent-" + head)
            && GetStr(cart, "cart_id") == (if t.cartId != "" then t.cartId else "cart-" + head)
            && GetStr(payment, "payment_mandate_id") == (if t.paymentMandateId != "" then t.paymentMandateId else "pay-" + head)
            && GetStr(intent, "user_goal_hash") == (if t.userGoalHash != "" then t.userGoalHash else h(b.taskId))
            && GetStr(intent, "created_at") == (if b.createdAt != "" then b.createdAt else now)
            && Lookup(intent, "human_present") == Some(Bool(false))
  {
    hide ToMandate, IntentFields, CartFields, PaymentFields, BundleText, Lookup, MandateDigest, First16, HasKeys;
    var bundleId := Or(b.bundleId, b.taskId);
    assert First16(bundleId) == head;
    MandateLookups(h, b, t, now);
    IntentLookups(h, b, t, bundleId, now);
    CartLookups(b, t, bundleId);
    PaymentLookups(t, bundleId);
  }

  lemma HexLooksLikeHex(ascii: Reading, s: string)
    requires PythonReading(ascii) && IsHex64(s)
    ensures LooksLikeHex64(ascii, s)
  {
    HexIsLower(s);
    assert Read(ascii, s) == s;
    assert Grouped(s);
  }

  /**
   Import after export always succeeds and keeps digest, receipt hashes and payment
   terms always. The signer becomes the payer; signature, storage references and trace
   are emptied; every other field survives exactly under the condition given.
   */
  lemma RoundTrip(h: Sha, ascii: Reading, b: Bundle, t: Terms, now: string, later: string)
    requires HexValued(h) && PythonReading(ascii) && now != "" && later != ""
    ensures var r := FromMandate(h, ascii, ToMandate(h, b, t, now), later);
            && r.Accepted?
            && r.value.evidenceDigest == BundleHash(h, b)
            && r.value.receiptHashes == b.receiptHashes
            && r.value.signer == t.payer && r.value.merchantRef == t.merchantRef
            && (r.value.signer == b.signer <==> b.signer == t.payer)
            && (r.value.signature == b.signature <==> b.signature == "")
            && (r.value.evidenceStorageRefs == b.evidenceStorageRefs <==> b.evidenceStorageRefs == [])
            && (r.value.traceId == b.traceId <==> b.traceId == "")
            && GetStr(r.value.payment, "payer") == t.payer && GetStr(r.value.payment, "payee") == t.payee
            && GetStr(r.value.payment, "token") == t.token && GetStr(r.value.payment, "amount") == t.amount
            && GetInt(r.value.payment, "chain_id") == t.chainId
            && GetStr(r.value.payment, "policy_id") == t.policyId && GetStr(r.value.payment, "expires_at") == t.expiresAt
            && (r.value.bundleId == b.bundleId <==> b.bundleId != "")
            && (r.value.taskId == b.taskId <==> b.taskId != "")
            && (r.value.taskContractHash == b.taskContractHash <==> b.taskContractHash != "")
            && (r.value.createdAt == b.createdAt <==> b.createdAt != "")
            && (r.value.schemaVersion == b.schemaVersion <==> b.schemaVersion != "")
            && (r.value.finalResultHash == b.finalResultHash <==>
                  b.finalResultHash ==
                  if b.receiptHashes == [] then BundleHash(h, b) else b.receiptHashes[|b.receiptHashes| - 1])
  {
    hide ToMandate, IntentFields, CartFields, PaymentFields, BundleText, Lookup, LooksLikeHex64, MandateDigest, First16;
    var bundleId := Or(b.bundleId, b.taskId);
    MandateLookups(h, b, t, now);
    IntentLookups(h, b, t, bundleId, now);
    CartLookups(b, t, bundleId);
    PaymentKeysPresent(t, bundleId);
    PaymentLookups(t, bundleId);
    assert IsHex64(BundleHash(h, b));
    HexLooksLikeHex(ascii, BundleHash(h, b));
    TopKeysPresent(ToMandate(h, b, t, now));
    assert forall s :: |h(s)| == 64 by { assert forall s :: IsHex64(h(s)); }
  }

  lemma TopKeysPresent(m: seq<Field>)
    requires Lookup(m, "ap2_version").Some? && Lookup(m, "intent_mandate").Some? && Lookup(m, "cart_mandate").Some?
    requires Lookup(m, "payment_mandate").Some? && Lookup(m, "karma_evidence_digest").Some?
    ensures HasKeys(m, TOP_KEYS)
  {
    hide Lookup;
    assert TOP_KEYS[0] == "ap2_version" && TOP_KEYS[1] == "intent_mandate" && TOP_KEYS[2] == "cart_mandate";
    assert TOP_KEYS[3] == "payment_mandate" && TOP_KEYS[4] == "karma_evidence_digest";
  }

  // ------------------------------------------------------------------- the digest's format

  /** Neither an underscore, an x, a sign or a blank, nor outside ASCII. */
  predicate Plain(c: char)
  {
    c < 127 as char && c != '_' && c != 'x' && c != '+' && c != '-' && !IsBlank(c)
  }

  lemma PlainIsRead(ascii: Reading, s: string)
    requires PythonReading(ascii) && forall i :: 0 <= i < |s| ==> Plain(s[i])
    ensures DropBlanks(SkipBlanks(Read(ascii, s))) == s
  {
    assert Read(ascii, s) == s;
  }

  predicate AllHex(s: string)
  {
    forall i :: 0 <= i < |s| ==> IsHexDigit(s[i])
  }

  lemma PrefixHasX(s: string)
    requires "0x" <= s
    ensures s[1] == 'x'
  {
  }

  lemma PlainNumber(s: string)
    requires HexNumber(s) && forall i :: 0 <= i < |s| ==> Plain(s[i])
    ensures AllHex(s)
  {
    if "0x" <= s {
      PrefixHasX(s);
      assert false;
    }
  }

  /** A text that passes the format check is 64 hex digits exactly if all its characters are plain. */
  lemma HexCheckExactly(ascii: Reading, s: string)
    requires PythonReading(ascii)
    ensures LooksLikeHex64(ascii, s) ==> (IsHex64(s) <==> forall i :: 0 <= i < |s| ==> Plain(s[i]))
    ensures IsHex64(s) ==> LooksLikeHex64(ascii, s)
  {
    hide HexNumber;
    if IsHex64(s) {
      HexLooksLikeHex(ascii, s);
    }
    if LooksLikeHex64(ascii, s) && forall i :: 0 <= i < |s| ==> Plain(s[i]) {
      PlainIsRead(ascii, s);
      PlainNumber(s);
    }
  }

  /** Stripping blanks leaves a slice, and everything around it is blank. */
  lemma {:induction false} SkipIsSlice(s: string) returns (a: nat)
    ensures a <= |s| && SkipBlanks(s) == s[a..] && forall i :: 0 <= i < a ==> IsBlank(s[i])
  {
    if s != "" && IsBlank(s[0]) {
      a := SkipIsSlice(s[1..]);
      assert s[1..][a..] == s[a + 1..];
      a := a + 1;
    } else {
      a := 0;
    }
  }

  lemma {:induction false} DropIsSlice(s: string) returns (b: nat)
    ensures b <= |s| && DropBlanks(s) == s[..b] && forall i :: b <= i < |s| ==> IsBlank(s[i])
  {
    if s != "" && IsBlank(s[|s| - 1]) {
      b := DropIsSlice(s[..|s| - 1]);
      assert s[..|s| - 1][..b] == s[..b];
    } else {
      b := |s|;
    }
  }

  /** A number has no capital prefix, no other characters, and no two underscores in a row. */
  lemma NumberShape(t: string, i: nat)
    requires HexNumber(t) && i < |t|
    ensures IsHexDigit(t[i]) || t[i] == '_' || t[i] == 'x' || ((t[i] == '+' || t[i] == '-') && i == 0)
    ensures i > 0 && t[i] == '_' ==> t[i - 1] != '_'
    ensures t[i] == '_' ==> 0 < i < |t| - 1
  {
    var k := if t[0] == '+' || t[0] == '-' then 1 else 0;
    var u := t[k..];
    if Grouped(u) {
      GroupShape(u, t, k, i);
    } else if Grouped(u[2..]) {
      GroupShape(u[2..], t, k + 2, i);
    } else {
      GroupShape(u[3..], t, k + 3, i);
    }
  }

  lemma GroupShape(u: string, t: string, k: nat, i: nat)
    requires k <= |t| && u == t[k..] && Grouped(u) && i < |t|
    ensures i >= k ==> IsHexDigit(t[i]) || t[i] == '_'
    ensures i > k && t[i] == '_' ==> t[i - 1] != '_'
    ensures i >= k && t[i] == '_' ==> k < i < |t| - 1
    ensures k < |t| && IsHexDigit(t[k])
  {
    if i >= k {
      assert u[i - k] == t[i];
      assert !Doubled(u, i - k);
    }
  }

  /**
   What a text that passes looks like, apart from blanks around it: no capitals, nothing
   but hex digits, x, underscores and a sign, and never two underscores in a row.
   */
  lemma AcceptedShape(ascii: Reading, s: string, i: nat)
    requires PythonReading(ascii) && LooksLikeHex64(ascii, s) && i < 64
    ensures !('A' <= s[i] <= 'Z')
    ensures var c := ascii(s[i]); IsHexDigit(c) || c == '_' || c == 'x' || c == '+' || c == '-' || IsBlank(c)
    ensures i > 0 && s[i] == '_' ==> s[i - 1] != '_'
  {
    hide HexNumber;
    assert LowerChar(s[i]) == s[i];
    var r := Read(ascii, s);
    var a := SkipIsSlice(r);
    var b := DropIsSlice(r[a..]);
    var t := r[a..][..b];
    assert HexNumber(t);
    if a <= i < a + b {
      assert t[i - a] == r[i];
      NumberShape(t, i - a);
      if i > a {
        assert t[i - a - 1] == r[i - 1];
      }
    } else if i >= a + b {
      assert r[a..][i - a] == r[i];
    }
  }

  lemma AllHexGrouped(s: string)
    requires AllHex(s) && s != ""
    ensures Grouped(s)
  {
  }

  lemma AcceptedIfNumber(ascii: Reading, s: string)
    requires PythonReading(ascii) && |s| == 64 && HexNumber(s)
    requires forall i :: 0 <= i < 64 ==> s[i] < 127 as char && !IsBlank(s[i]) && LowerChar(s[i]) == s[i]
    ensures LooksLikeHex64(ascii, s)
  {
    hide HexNumber;
    assert Read(ascii, s) == s && s == Lower(s);
  }

  /** Every kind of character that is not plain gets through: a single underscore between digits. */
  lemma UnderscorePasses(ascii: Reading, a: string, b: string)
    requires PythonReading(ascii) && AllHex(a) && AllHex(b) && a != "" && b != "" && |a| + |b| == 63
    ensures LooksLikeHex64(ascii, a + "_" + b)
  {
    var s := a + "_" + b;
    assert s[|a|] == '_';
    assert forall i :: 0 <= i < |s| && i != |a| ==> IsHexDigit(s[i]);
    assert Grouped(s);
    AcceptedIfNumber(ascii, s);
  }

  /** A sign in front. */
  lemma SignPasses(ascii: Reading, sign: char, t: string)
    requires PythonReading(ascii) && AllHex(t) && |t| == 63 && (sign == '+' || sign == '-')
    ensures LooksLikeHex64(ascii, [sign] + t)
  {
    hide Grouped;
    AllHexGrouped(t);
    assert ([sign] + t)[1..] == t;
    AcceptedIfNumber(ascii, [sign] + t);
  }

  /** The prefix `0x`. */
  lemma PrefixPasses(ascii: Reading, t: string)
    requires PythonReading(ascii) && AllHex(t) && |t| == 62
    ensures LooksLikeHex64(ascii, "0x" + t)
  {
    hide Grouped;
    AllHexGrouped(t);
    var s := "0x" + t;
    assert s[0] == '0' && s[1] == 'x' && s[2..] == t;
    AcceptedIfNumber(ascii, s);
  }

  lemma NoBlanks(t: string)
    requires AllHex(t)
    ensures SkipBlanks(t) == t && DropBlanks(t) == t
  {
  }

  /** A blank on either side. */
  lemma BlankPasses(ascii: Reading, t: string, c: char)
    requires PythonReading(ascii) && AllHex(t) && |t| == 63 && LowerChar(c) == c && IsBlank(ascii(c))
    ensures LooksLikeHex64(ascii, t + [c]) && LooksLikeHex64(ascii, [c] + t)
  {
    hide Grouped;
    var d := ascii(c);
    AllHexGrouped(t);
    NoBlanks(t);
    assert Read(ascii, t + [c]) == t + [d] && Read(ascii, [c] + t) == [d] + t;
    assert t + [c] == Lower(t + [c]) && [c] + t == Lower([c] + t);
    assert (t + [d])[0] == t[0] && (t + [d])[..63] == t && ([d] + t)[1..] == t;
    hide HexNumber;
    assert HexNumber(t) by { NumberIfGrouped(t); }
  }

  lemma NumberIfGrouped(t: string)
    requires AllHex(t) && t != ""
    ensures HexNumber(t)
  {
    AllHexGrouped(t);
  }

  /** A decimal digit from outside ASCII. */
  lemma ForeignDigitPasses(ascii: Reading, t: string, c: char)
    requires PythonReading(ascii) && AllHex(t) && |t| == 63 && LowerChar(c) == c && IsDigit(ascii(c))
    ensures LooksLikeHex64(ascii, t + [c]) && LooksLikeHex64(ascii, [c] + t)
  {
    hide Grouped, HexNumber, SkipBlanks, DropBlanks;
    var d := ascii(c);
    assert Read(ascii, t + [c]) == t + [d] && Read(ascii, [c] + t) == [d] + t;
    assert t + [c] == Lower(t + [c]) && [c] + t == Lower([c] + t);
    NoBlanks(t + [d]);
    NoBlanks([d] + t);
    NumberIfGrouped(t + [d]);
    NumberIfGrouped([d] + t);
  }

  /** So what an import accepts as digest is 64 hex digits exactly if it is plain. */
  lemma AcceptedDigest(h: Sha, ascii: Reading, m: seq<Field>, now: string)
    requires PythonReading(ascii) && FromMandate(h, ascii, m, now).Accepted?
    ensures var digest := FromMandate(h, ascii, m, now).value.evidenceDigest;
            IsHex64(digest) <==> forall i :: 0 <= i < |digest| ==> Plain(digest[i])
  {
    hide Lookup, LooksLikeHex64, GetStr, GetStrs, Declared, HasKeys, Plain, Or;
    HexCheckExactly(ascii, FromMandate(h, ascii, m, now).value.evidenceDigest);
  }
}

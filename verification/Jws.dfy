/** Signing and verifying LogEvents as Flat JWS JSON (section 7.2.2 of RFC 7515). Cryptography,
    certificate parsing and JSON text are parameters; base64 and the chain walk are not. */
module Jws {
  import opened Prelude
  import opened Base64
  import opened ChainWalk
  import Json

  /** The library calls the code makes. `sign` is the signer's private key at work; `verify`
      is the check with a certificate's public key. */
  datatype Library<!C> = Library(
    dumps: Json.Value -> seq<Byte>,
    loads: seq<Byte> -> Option<Json.Value>,
    der: C -> seq<Byte>,
    loadDer: seq<Byte> -> Option<C>,
    sha256: seq<Byte> -> seq<Byte>,
    sign: string -> seq<Byte>,
    verify: (C, seq<Byte>, string) -> bool,
    validNow: C -> bool,
    issued: (C, C) -> bool)

  datatype Delivery = ByValue | ByReference(url: string)

  datatype Signer<C> = Signer(chain: seq<C>, delivery: Delivery)

  datatype Problem =
    BadAlgorithm | NoCert | BadURL | BadThumb | BadCertX5c | BadCertX5u | BadSignature | OtherLogSignature

  /** `Raised` is an exception that leaves `verify_jws`. */
  datatype Outcome =
    | Accepted(payload: Dict<string, Json.Value>)
    | Reported(payload: Dict<string, Json.Value>, problem: Problem)
    | Raised

  // ---------------------------------------------------------------- signing

  /** `__post_init__` */
  predicate Usable<C>(s: Signer<C>) {
    s.chain != [] && (s.delivery.ByReference? ==> s.delivery.url != "")
  }

  function Thumbprint<C>(lib: Library<C>, c: C): string {
    UrlEncode(lib.sha256(lib.der(c)))
  }

  function X5c<C>(lib: Library<C>, chain: seq<C>): seq<Json.Value> {
    if chain == [] then []
    else [Json.Str(Encode(lib.der(chain[0]), Standard))] + X5c(lib, chain[1..])
  }

  /** `_build_protected_header` */
  function ProtectedHeader<C>(lib: Library<C>, s: Signer<C>): Dict<string, Json.Value>
    requires s.chain != []
  {
    var header := Json.Empty().Put("alg", Json.Str("EdDSA"));
    match s.delivery
    case ByValue => header.Put("x5c", Json.Arr(X5c(lib, s.chain)))
    case ByReference(url) =>
      header.Put("x5u", Json.Str(url)).Put("x5t#S256", Json.Str(Thumbprint(lib, s.chain[0])))
  }

  function Envelope(payloadB64: string, protectedB64: string, signatureB64: string): Dict<string, Json.Value> {
    Json.Empty().Put("payload", Json.Str(payloadB64))
                .Put("protected", Json.Str(protectedB64))
                .Put("signature", Json.Str(signatureB64))
  }

  /** `JwsSigner.sign` */
  function Sign<C>(lib: Library<C>, s: Signer<C>, payload: Dict<string, Json.Value>): seq<Byte>
    requires s.chain != []
  {
    var payloadB64 := UrlEncode(lib.dumps(Json.Obj(payload)));
    var protectedB64 := UrlEncode(lib.dumps(Json.Obj(ProtectedHeader(lib, s))));
    var signature := lib.sign(protectedB64 + "." + payloadB64);
    lib.dumps(Json.Obj(Envelope(payloadB64, protectedB64, UrlEncode(signature))))
  }

  // ---------------------------------------------------------------- verifying

  /** `json.loads(_b64url_decode(field))`, which must be an object. */
  function DecodeObject<C>(lib: Library<C>, field: Json.Value): Option<Dict<string, Json.Value>> {
    if !field.Str? then None
    else
      match UrlDecode(field.s)
      case None => None
      case Some(bytes) =>
        match lib.loads(bytes)
        case Some(Obj(o)) => Some(o)
        case _ => None
  }

  /** What `for entry in x5c` yields; None when the value cannot be iterated over. */
  function Entries(x5c: Json.Value): Option<seq<Json.Value>> {
    match x5c
    case Arr(a) => Some(a)
    case Str(s) => Some(seq(|s|, i requires 0 <= i < |s| => Json.Str([s[i]])))
    case Obj(o) => Some(seq(|o.order|, i requires 0 <= i < |o.order| => Json.Str(o.order[i])))
    case _ => None
  }

  function LoadChain<C>(lib: Library<C>, entries: seq<Json.Value>): Option<seq<C>> {
    if entries == [] then Some([])
    else if !entries[0].Str? then None
    else
      match Decode(entries[0].s, Standard)
      case None => None
      case Some(der) =>
        match lib.loadDer(der)
        case None => None
        case Some(c) =>
          match LoadChain(lib, entries[1..])
          case None => None
          case Some(rest) => Some([c] + rest)
  }

  datatype Leaf<C> = Found(cert: C) | Failed(problem: Problem) | Throws

  /** The leaf certificate, or why there is none. */
  ghost function FindLeaf<C(!new)>(lib: Library<C>, header: Dict<string, Json.Value>, trusted: seq<C>): Leaf<C> {
    if "x5c" in header.at then
      if !Json.Truthy(header.at["x5c"]) then Failed(NoCert)
      else
        match Entries(header.at["x5c"])
        case None => Failed(BadCertX5c)
        case Some(entries) =>
          match LoadChain(lib, entries)
          case None => Failed(BadCertX5c)
          case Some(chain) =>
            if chain == [] || !lib.validNow(chain[0]) then Failed(BadCertX5c)
            else if trusted != [] && !Walk(chain[0], chain[1..], trusted, lib.issued) then Failed(BadCertX5c)
            else Found(chain[0])
    else if "x5u" in header.at then
      if "x5t#S256" !in header.at then Failed(BadThumb)
      else if trusted == [] then Failed(BadURL)
      else
        var claimed := header.at["x5t#S256"];
        if !claimed.Str? then Failed(BadThumb)
        // hmac.compare_digest refuses a str outside ASCII
        else if !Ascii(claimed.s) then Throws
        else if claimed.s != Thumbprint(lib, trusted[0]) then Failed(BadThumb)
        else if !lib.validNow(trusted[0]) then Failed(BadCertX5u)
        else Found(trusted[0])
    else Failed(NoCert)
  }

  /** `verify_jws` */
  ghost function Verify<C(!new)>(lib: Library<C>, jws: seq<Byte>, trusted: seq<C>, allowUnsigned: bool): Outcome {
    match lib.loads(jws)
    case Some(Obj(o)) => VerifyObject(lib, o, trusted, allowUnsigned)
    case _ => Reported(Json.Empty(), OtherLogSignature)
  }

  ghost function VerifyObject<C(!new)>(lib: Library<C>, o: Dict<string, Json.Value>, trusted: seq<C>, allowUnsigned: bool): Outcome {
    var payloadB64 := Json.Get(o, "payload", Json.Str(""));
    var protectedB64 := Json.Get(o, "protected", Json.Str(""));
    var sigB64 := Json.Get(o, "signature", Json.Str(""));
    var header := DecodeObject(lib, protectedB64);
    var payload := DecodeObject(lib, payloadB64);
    if header.None? || payload.None? then Reported(Json.Empty(), OtherLogSignature)
    else
      var p := payload.value;
      var alg := Json.Get(header.value, "alg", Json.Str(""));
      if "crit" in header.value.at then Reported(p, OtherLogSignature)
      else if alg == Json.Str("none") then
        if allowUnsigned then Accepted(p) else Reported(p, BadAlgorithm)
      else if alg != Json.Str("EdDSA") then Reported(p, BadAlgorithm)
      else
        match FindLeaf(lib, header.value, trusted)
        case Throws => Raised
        case Failed(problem) => Reported(p, problem)
        case Found(leaf) =>
          if Checks(lib, leaf, sigB64, protectedB64.s + "." + payloadB64.s) then Accepted(p)
          else Reported(p, BadSignature)
  }

  predicate Checks<C(!new)>(lib: Library<C>, leaf: C, sigB64: Json.Value, signingInput: string) {
    sigB64.Str? && UrlDecode(sigB64.s).Some? && lib.verify(leaf, UrlDecode(sigB64.s).value, signingInput)
  }

  // ---------------------------------------------------------------- laws and round trip

  /** Strings, and arrays and objects of them: all the signer itself puts into JSON. */
  ghost predicate Texts(v: Json.Value) {
    match v
    case Str(_) => true
    case Arr(_) => TextArray(v)
    case Obj(o) => o.Valid() && forall k :: k in o.at ==> o.at[k].Str? || TextArray(o.at[k])
    case _ => false
  }

  predicate TextArray(v: Json.Value) {
    v.Arr? && forall i :: 0 <= i < |v.a| ==> v.a[i].Str?
  }

  ghost predicate RoundTrips<C>(lib: Library<C>, v: Json.Value) {
    lib.loads(lib.dumps(v)) == Some(v)
  }

  /** What is asked of the libraries: JSON text keeps strings, DER can be read back, and the
      private key belongs to the leaf certificate. */
  ghost predicate Lawful<C(!new)>(lib: Library<C>, leaf: C) {
    && (forall v :: Texts(v) ==> RoundTrips(lib, v))
    && (forall c :: lib.loadDer(lib.der(c)) == Some(c))
    && (forall m :: lib.verify(leaf, lib.sign(m), m))
  }

  lemma {:induction false} LoadChainX5c<C(!new)>(lib: Library<C>, chain: seq<C>)
    requires forall c :: lib.loadDer(lib.der(c)) == Some(c)
    ensures LoadChain(lib, X5c(lib, chain)) == Some(chain)
    ensures |X5c(lib, chain)| == |chain|
    ensures forall i :: 0 <= i < |chain| ==> X5c(lib, chain)[i].Str?
    decreases |chain|
  {
    if chain != [] {
      DecodeEncode(lib.der(chain[0]), Standard);
      LoadChainX5c(lib, chain[1..]);
      assert X5c(lib, chain)[1..] == X5c(lib, chain[1..]);
      assert [chain[0]] + chain[1..] == chain;
    }
  }

  /** The trust handed to the verifier fits the signer. */
  ghost predicate TrustFits<C(!new)>(lib: Library<C>, s: Signer<C>, trusted: seq<C>)
    requires s.chain != []
  {
    match s.delivery
    case ByValue => trusted == [] || Walk(s.chain[0], s.chain[1..], trusted, lib.issued)
    case ByReference(_) => trusted != [] && trusted[0] == s.chain[0]
  }

  lemma UrlTextIsAscii(data: seq<Byte>)
    ensures Ascii(UrlEncode(data))
  {
    UrlRoundTrip(data);
    var s := UrlEncode(data);
    forall i | 0 <= i < |s| ensures s[i] < 128 as char {
      assert s[i] in s;
    }
  }

  lemma HeaderIsTexts<C(!new)>(lib: Library<C>, s: Signer<C>)
    requires Usable(s) && forall c :: lib.loadDer(lib.der(c)) == Some(c)
    ensures Texts(Json.Obj(ProtectedHeader(lib, s)))
  {
    LoadChainX5c(lib, s.chain);
  }

  lemma ValueHeader<C(!new)>(lib: Library<C>, s: Signer<C>)
    requires Usable(s) && s.delivery.ByValue?
    ensures var header := ProtectedHeader(lib, s);
      "x5c" in header.at && header.at["x5c"] == Json.Arr(X5c(lib, s.chain))
  {
    hide X5c, Usable;
  }

  lemma LeafOfEntries<C(!new)>(lib: Library<C>, header: Dict<string, Json.Value>, entries: seq<Json.Value>,
                               chain: seq<C>, trusted: seq<C>)
    requires "x5c" in header.at && header.at["x5c"] == Json.Arr(entries) && entries != []
    requires LoadChain(lib, entries) == Some(chain) && chain != [] && lib.validNow(chain[0])
    ensures FindLeaf(lib, header, trusted) == Found(chain[0]) <==>
      trusted == [] || Walk(chain[0], chain[1..], trusted, lib.issued)
  {
    hide LoadChain, Walk;
  }

  lemma FoundByValue<C(!new)>(lib: Library<C>, s: Signer<C>, trusted: seq<C>)
    requires Usable(s) && s.delivery.ByValue? && lib.validNow(s.chain[0])
    requires forall c :: lib.loadDer(lib.der(c)) == Some(c)
    ensures FindLeaf(lib, ProtectedHeader(lib, s), trusted) == Found(s.chain[0]) <==> TrustFits(lib, s, trusted)
  {
    LoadChainX5c(lib, s.chain);
    ValueHeader(lib, s);
    hide FindLeaf, LoadChain, X5c, Walk, ProtectedHeader;
    LeafOfEntries(lib, ProtectedHeader(lib, s), X5c(lib, s.chain), s.chain, trusted);
  }

  lemma ReferenceHeader<C(!new)>(lib: Library<C>, s: Signer<C>)
    requires Usable(s) && s.delivery.ByReference?
    ensures var header := ProtectedHeader(lib, s);
      && "x5c" !in header.at && "x5u" in header.at
      && "x5t#S256" in header.at && header.at["x5t#S256"] == Json.Str(Thumbprint(lib, s.chain[0]))
  {
    NamesDiffer();
    hide X5c, Thumbprint, Usable;
  }

  lemma FoundByReference<C(!new)>(lib: Library<C>, s: Signer<C>, trusted: seq<C>)
    requires Usable(s) && s.delivery.ByReference? && lib.validNow(s.chain[0])
    ensures FindLeaf(lib, ProtectedHeader(lib, s), trusted) == Found(s.chain[0]) <==> TrustFits(lib, s, trusted)
  {
    UrlTextIsAscii(lib.sha256(lib.der(s.chain[0])));
    hide UrlEncode, Ascii, LoadChain, X5c, Walk, Entries, ProtectedHeader;
    ReferenceHeader(lib, s);
  }

  /** The verifier finds the signer's own leaf exactly when the supplied trust fits. */
  lemma SignerIsFound<C(!new)>(lib: Library<C>, s: Signer<C>, trusted: seq<C>)
    requires Usable(s) && Lawful(lib, s.chain[0]) && lib.validNow(s.chain[0])
    ensures FindLeaf(lib, ProtectedHeader(lib, s), trusted) == Found(s.chain[0]) <==> TrustFits(lib, s, trusted)
  {
    hide FindLeaf, ProtectedHeader, TrustFits;
    if s.delivery.ByValue? {
      FoundByValue(lib, s, trusted);
    } else {
      FoundByReference(lib, s, trusted);
    }
  }

  lemma FieldDecodes<C(!new)>(lib: Library<C>, d: Dict<string, Json.Value>)
    requires RoundTrips(lib, Json.Obj(d))
    ensures DecodeObject(lib, Json.Str(UrlEncode(lib.dumps(Json.Obj(d))))) == Some(d)
  {
    UrlRoundTrip(lib.dumps(Json.Obj(d)));
  }

  lemma EnvelopeFields(p: string, h: string, s: string)
    ensures var o := Envelope(p, h, s);
      && Json.Get(o, "payload", Json.Str("")) == Json.Str(p)
      && Json.Get(o, "protected", Json.Str("")) == Json.Str(h)
      && Json.Get(o, "signature", Json.Str("")) == Json.Str(s)
      && Texts(Json.Obj(o))
  {
  }

  lemma HeaderFields<C(!new)>(lib: Library<C>, s: Signer<C>)
    requires Usable(s)
    ensures var header := ProtectedHeader(lib, s);
      "crit" !in header.at && Json.Get(header, "alg", Json.Str("")) == Json.Str("EdDSA")
  {
    NamesDiffer();
    hide X5c, Thumbprint, Usable;
  }

  lemma {:induction false} X5cEntries<C(!new)>(lib: Library<C>, chain: seq<C>)
    ensures |X5c(lib, chain)| == |chain|
    ensures forall i :: 0 <= i < |chain| ==> X5c(lib, chain)[i] == Json.Str(Encode(lib.der(chain[i]), Standard))
    decreases |chain|
  {
    if chain != [] {
      X5cEntries(lib, chain[1..]);
    }
    hide Encode;
  }

  /** What is protected: the algorithm with the whole chain in standard base64, or with the URL
      and the SHA-256 thumbprint of the leaf, and nothing else. */
  lemma HeaderSays<C(!new)>(lib: Library<C>, s: Signer<C>)
    requires Usable(s)
    ensures var at := ProtectedHeader(lib, s).at;
      match s.delivery
      case ByValue =>
        && at.Keys == {"alg", "x5c"} && at["alg"] == Json.Str("EdDSA") && at["x5c"].Arr?
        && |at["x5c"].a| == |s.chain|
        && forall i :: 0 <= i < |s.chain| ==> at["x5c"].a[i] == Json.Str(Encode(lib.der(s.chain[i]), Standard))
      case ByReference(url) =>
        && at.Keys == {"alg", "x5u", "x5t#S256"} && at["alg"] == Json.Str("EdDSA") && at["x5u"] == Json.Str(url)
        && at["x5t#S256"] == Json.Str(UrlEncode(lib.sha256(lib.der(s.chain[0]))))
  {
    NamesDiffer();
    X5cEntries(lib, s.chain);
    hide X5c, Encode, UrlEncode;
  }

  lemma NamesDiffer()
    ensures "crit" !in {"alg", "x5c", "x5u", "x5t#S256"}
    ensures "alg" !in {"x5c", "x5u", "x5t#S256"} && "x5c" !in {"x5u", "x5t#S256"} && "x5u" != "x5t#S256"
  {
    assert |"crit"| == 4 && |"x5t#S256"| == 8;
    assert "alg"[0] != "x5c"[0] && "alg"[0] != "x5u"[0] && "x5c"[2] != "x5u"[2];
  }

  lemma GoodEnvelopeAccepted<C(!new)>(lib: Library<C>, p: string, h: string, s: string,
      header: Dict<string, Json.Value>, payload: Dict<string, Json.Value>, leaf: C,
      trusted: seq<C>, allowUnsigned: bool)
    requires DecodeObject(lib, Json.Str(h)) == Some(header) && DecodeObject(lib, Json.Str(p)) == Some(payload)
    requires "crit" !in header.at && Json.Get(header, "alg", Json.Str("")) == Json.Str("EdDSA")
    requires FindLeaf(lib, header, trusted) == Found(leaf)
    requires Checks(lib, leaf, Json.Str(s), h + "." + p)
    ensures VerifyObject(lib, Envelope(p, h, s), trusted, allowUnsigned) == Accepted(payload)
  {
    EnvelopeFields(p, h, s);
    hide FindLeaf, DecodeObject, Checks, Envelope;
  }

  /** What the laws give for one signature. */
  lemma SignatureChecks<C(!new)>(lib: Library<C>, leaf: C, m: string)
    requires Lawful(lib, leaf)
    ensures Checks(lib, leaf, Json.Str(UrlEncode(lib.sign(m))), m)
  {
    UrlRoundTrip(lib.sign(m));
  }

  lemma EnvelopeRoundTrips<C(!new)>(lib: Library<C>, leaf: C, p: string, h: string, s: string)
    requires Lawful(lib, leaf)
    ensures RoundTrips(lib, Json.Obj(Envelope(p, h, s)))
  {
    EnvelopeFields(p, h, s);
  }

  /** What is signed verifies, in both delivery modes, whatever the policy on unsigned events. */
  lemma SignedVerifies<C(!new)>(lib: Library<C>, s: Signer<C>, payload: Dict<string, Json.Value>,
                                trusted: seq<C>, allowUnsigned: bool)
    requires Usable(s) && Lawful(lib, s.chain[0]) && RoundTrips(lib, Json.Obj(payload))
    requires lib.validNow(s.chain[0]) && TrustFits(lib, s, trusted)
    ensures Verify(lib, Sign(lib, s, payload), trusted, allowUnsigned) == Accepted(payload)
  {
    var header := ProtectedHeader(lib, s);
    HeaderIsTexts(lib, s);
    HeaderFields(lib, s);
    assert RoundTrips(lib, Json.Obj(header));
    FieldDecodes(lib, header);
    FieldDecodes(lib, payload);
    SignerIsFound(lib, s, trusted);
    var p := UrlEncode(lib.dumps(Json.Obj(payload)));
    var h := UrlEncode(lib.dumps(Json.Obj(header)));
    var sig := UrlEncode(lib.sign(h + "." + p));
    SignatureChecks(lib, s.chain[0], h + "." + p);
    GoodEnvelopeAccepted(lib, p, h, sig, header, payload, s.chain[0], trusted, allowUnsigned);
    EnvelopeRoundTrips(lib, s.chain[0], p, h, sig);
    hide Lawful, Texts, ProtectedHeader, Envelope, VerifyObject, UrlEncode, TrustFits, DecodeObject, FindLeaf;
    assert Sign(lib, s, payload) == lib.dumps(Json.Obj(Envelope(p, h, sig)));
  }

  /** `chain` is what the x5c entries of the protected header decode to. */
  ghost predicate Supplied<C(!new)>(lib: Library<C>, header: Dict<string, Json.Value>, chain: seq<C>) {
    && "x5c" in header.at && Entries(header.at["x5c"]).Some? && chain != []
    && LoadChain(lib, Entries(header.at["x5c"]).value) == Some(chain)
  }

  /** `leaf` may sign for the holder of `trusted`, going by the protected header: it is the
      first certificate supplied by value, and the others lead from it to an anchor if there
      are any; or it is the caller's own first certificate and the thumbprint is its. */
  ghost predicate Vouched<C(!new)>(lib: Library<C>, header: Dict<string, Json.Value>, leaf: C, trusted: seq<C>) {
    || (exists chain :: Supplied(lib, header, chain) && leaf == chain[0]
          && (trusted != [] ==>
                exists path :: LeadsToAnchor(path, chain[1..], trusted, lib.issued) && path[0] == leaf))
    || ("x5c" !in header.at && "x5u" in header.at && trusted != [] && leaf == trusted[0]
        && "x5t#S256" in header.at && header.at["x5t#S256"] == Json.Str(Thumbprint(lib, leaf)))
  }

  lemma FoundIsVouched<C(!new)>(lib: Library<C>, header: Dict<string, Json.Value>, trusted: seq<C>)
    ensures var f := FindLeaf(lib, header, trusted);
      f.Found? ==> lib.validNow(f.cert) && Vouched(lib, header, f.cert, trusted)
  {
    var f := FindLeaf(lib, header, trusted);
    if f.Found? && "x5c" in header.at {
      var chain := LoadChain(lib, Entries(header.at["x5c"]).value).value;
      assert Supplied(lib, header, chain);
      if trusted != [] {
        var path := WalkIsSound(chain[0], chain[1..], trusted, lib.issued);
      }
    }
  }

  function TextOf(o: Dict<string, Json.Value>, k: string): string {
    match Json.Get(o, k, Json.Str(""))
    case Str(s) => s
    case _ => ""
  }

  /** Nothing is accepted as signed unless the signature over the very two texts received
      verifies under a certificate that is valid now and vouched for; an object that is not
      signed is accepted only where policy allows it. */
  lemma AcceptedMeansSigned<C(!new)>(lib: Library<C>, o: Dict<string, Json.Value>, trusted: seq<C>, allowUnsigned: bool)
    requires VerifyObject(lib, o, trusted, allowUnsigned).Accepted?
    ensures var header := DecodeObject(lib, Json.Get(o, "protected", Json.Str("")));
      && header.Some? && "crit" !in header.value.at
      && DecodeObject(lib, Json.Get(o, "payload", Json.Str(""))) ==
           Some(VerifyObject(lib, o, trusted, allowUnsigned).payload)
      && if Json.Get(header.value, "alg", Json.Str("")) == Json.Str("none") then allowUnsigned
         else
           && "alg" in header.value.at && header.value.at["alg"] == Json.Str("EdDSA")
           && exists leaf, sig ::
                && lib.verify(leaf, sig, TextOf(o, "protected") + "." + TextOf(o, "payload"))
                && UrlDecode(TextOf(o, "signature")) == Some(sig)
                && lib.validNow(leaf) && Vouched(lib, header.value, leaf, trusted)
  {
    var header := DecodeObject(lib, Json.Get(o, "protected", Json.Str(""))).value;
    FoundIsVouched(lib, header, trusted);
    if Json.Get(header, "alg", Json.Str("")) != Json.Str("none") {
      var leaf := FindLeaf(lib, header, trusted).cert;
      var sig := UrlDecode(TextOf(o, "signature")).value;
      hide FindLeaf, UrlDecode, DecodeObject, Vouched;
      assert lib.verify(leaf, sig, TextOf(o, "protected") + "." + TextOf(o, "payload"));
    }
  }

  // ---------------------------------------------------------------- the exact verdicts

  /** The member's text, "" when it is missing. */
  predicate Member(o: Dict<string, Json.Value>, k: string, text: string) {
    if k in o.at then o.at[k] == Json.Str(text) else text == ""
  }

  /** The text is base64url of the JSON text of an object. */
  ghost predicate Says<C(!new)>(lib: Library<C>, text: string, d: Dict<string, Json.Value>) {
    UrlDecode(text).Some? && lib.loads(UrlDecode(text).value) == Some(Json.Obj(d))
  }

  /** `h` and `p` are the two texts of the object that are signed; `header` and `payload` are
      what they say. */
  ghost predicate Opens<C(!new)>(lib: Library<C>, jws: seq<Byte>, o: Dict<string, Json.Value>, h: string, p: string,
                           header: Dict<string, Json.Value>, payload: Dict<string, Json.Value>) {
    && lib.loads(jws) == Some(Json.Obj(o))
    && Member(o, "protected", h) && Says(lib, h, header)
    && Member(o, "payload", p) && Says(lib, p, payload)
  }

  /** Entry by entry: standard base64 of the DER of a certificate. */
  ghost predicate ListsChain<C(!new)>(lib: Library<C>, entries: seq<Json.Value>, chain: seq<C>) {
    && |entries| == |chain|
    && forall i :: 0 <= i < |chain| ==>
         && entries[i].Str? && Decode(entries[i].s, Standard).Some?
         && lib.loadDer(Decode(entries[i].s, Standard).value) == Some(chain[i])
  }

  /** The header sends a chain by value whose leaf is valid now and which, if there are anchors,
      leads to one. */
  ghost predicate GoodChain<C(!new)>(lib: Library<C>, header: Dict<string, Json.Value>, trusted: seq<C>, chain: seq<C>) {
    && "x5c" in header.at && Json.Truthy(header.at["x5c"]) && Entries(header.at["x5c"]).Some?
    && ListsChain(lib, Entries(header.at["x5c"]).value, chain)
    && chain != [] && lib.validNow(chain[0])
    && (trusted == [] || Walk(chain[0], chain[1..], trusted, lib.issued))
  }

  /** The header sends its certificate by reference. */
  predicate Refers(header: Dict<string, Json.Value>) {
    "x5c" !in header.at && "x5u" in header.at
  }

  /** The thumbprint in the header is that of the caller's first certificate. */
  ghost predicate ThumbFits<C(!new)>(lib: Library<C>, header: Dict<string, Json.Value>, trusted: seq<C>) {
    && trusted != [] && "x5t#S256" in header.at
    && header.at["x5t#S256"] == Json.Str(UrlEncode(lib.sha256(lib.der(trusted[0]))))
  }

  /** `leaf` is the certificate that may have signed: sent by value, or the caller's own. */
  ghost predicate MaySign<C(!new)>(lib: Library<C>, header: Dict<string, Json.Value>, trusted: seq<C>, leaf: C) {
    || (exists chain :: GoodChain(lib, header, trusted, chain) && leaf == chain[0])
    || (Refers(header) && ThumbFits(lib, header, trusted) && leaf == trusted[0] && lib.validNow(leaf))
  }

  /** The signature over the two texts received verifies with the key of `leaf`. */
  ghost predicate Signed<C(!new)>(lib: Library<C>, o: Dict<string, Json.Value>, h: string, p: string, leaf: C) {
    exists text ::
      && Member(o, "signature", text) && UrlDecode(text).Some?
      && lib.verify(leaf, UrlDecode(text).value, h + "." + p)
  }

  /** Nothing is critical, and the algorithm is `alg`. */
  predicate Uses(header: Dict<string, Json.Value>, alg: string) {
    "crit" !in header.at && "alg" in header.at && header.at["alg"] == Json.Str(alg)
  }

  /** When each problem is the one to report. */
  ghost predicate Deserves<C(!new)>(lib: Library<C>, o: Dict<string, Json.Value>, h: string, p: string,
      header: Dict<string, Json.Value>, trusted: seq<C>, allowUnsigned: bool, problem: Problem)
  {
    match problem
    case OtherLogSignature => "crit" in header.at
    case BadAlgorithm => "crit" !in header.at && !Uses(header, "EdDSA") && !(Uses(header, "none") && allowUnsigned)
    case NoCert =>
      Uses(header, "EdDSA")
      && if "x5c" in header.at then !Json.Truthy(header.at["x5c"]) else "x5u" !in header.at
    case BadCertX5c =>
      Uses(header, "EdDSA") && "x5c" in header.at && Json.Truthy(header.at["x5c"])
      && forall chain :: !GoodChain(lib, header, trusted, chain)
    case BadURL => Uses(header, "EdDSA") && Refers(header) && "x5t#S256" in header.at && trusted == []
    case BadThumb =>
      Uses(header, "EdDSA") && Refers(header)
      && ("x5t#S256" !in header.at
          || (trusted != [] && !ThumbFits(lib, header, trusted)
              && (header.at["x5t#S256"].Str? ==> Ascii(header.at["x5t#S256"].s))))
    case BadCertX5u =>
      Uses(header, "EdDSA") && Refers(header) && ThumbFits(lib, header, trusted) && !lib.validNow(trusted[0])
    case BadSignature =>
      Uses(header, "EdDSA") && exists leaf :: MaySign(lib, header, trusted, leaf) && !Signed(lib, o, h, p, leaf)
  }

  lemma {:induction false} LoadChainIff<C(!new)>(lib: Library<C>, entries: seq<Json.Value>, chain: seq<C>)
    ensures LoadChain(lib, entries) == Some(chain) <==> ListsChain(lib, entries, chain)
    decreases |entries|
  {
    hide Decode;
    if entries != [] && chain != [] {
      LoadChainIff(lib, entries[1..], chain[1..]);
      assert chain == [chain[0]] + chain[1..];
      if ListsChain(lib, entries[1..], chain[1..]) && ListsChain(lib, entries[..1], chain[..1]) {
        forall i | 0 <= i < |chain|
          ensures entries[i].Str? && Decode(entries[i].s, Standard).Some?
          ensures lib.loadDer(Decode(entries[i].s, Standard).value) == Some(chain[i])
        {
          if i == 0 {
            assert entries[..1][0] == entries[0] && chain[..1][0] == chain[0];
          } else {
            assert entries[1..][i - 1] == entries[i] && chain[1..][i - 1] == chain[i];
          }
        }
      }
    }
  }

  /** The leaf by value. */
  lemma ValueLeaf<C(!new)>(lib: Library<C>, header: Dict<string, Json.Value>, trusted: seq<C>)
    requires "x5c" in header.at
    ensures var f := FindLeaf(lib, header, trusted);
      && (f == Failed(NoCert) <==> !Json.Truthy(header.at["x5c"]))
      && (f == Failed(BadCertX5c) <==>
            Json.Truthy(header.at["x5c"]) && forall chain :: !GoodChain(lib, header, trusted, chain))
      && (forall leaf :: f == Found(leaf) <==> exists chain :: GoodChain(lib, header, trusted, chain) && leaf == chain[0])
      && (f.Found? || f == Failed(NoCert) || f == Failed(BadCertX5c))
  {
    if Entries(header.at["x5c"]).Some? {
      var entries := Entries(header.at["x5c"]).value;
      forall chain ensures LoadChain(lib, entries) == Some(chain) <==> ListsChain(lib, entries, chain) {
        LoadChainIff(lib, entries, chain);
      }
      hide LoadChain, ListsChain, Entries, Walk;
      if LoadChain(lib, entries).Some? {
        var chain := LoadChain(lib, entries).value;
        assert forall other :: GoodChain(lib, header, trusted, other) ==> other == chain;
        assert GoodChain(lib, header, trusted, chain) <==>
          && Json.Truthy(header.at["x5c"]) && chain != [] && lib.validNow(chain[0])
          && (trusted == [] || Walk(chain[0], chain[1..], trusted, lib.issued));
      } else {
        assert forall chain :: !GoodChain(lib, header, trusted, chain);
      }
    }
  }

  /** The leaf by reference. */
  lemma ReferenceLeaf<C(!new)>(lib: Library<C>, header: Dict<string, Json.Value>, trusted: seq<C>)
    requires Refers(header)
    ensures var f := FindLeaf(lib, header, trusted);
      && (f == Failed(BadURL) <==> "x5t#S256" in header.at && trusted == [])
      && (f == Failed(BadThumb) <==>
            || "x5t#S256" !in header.at
            || (trusted != [] && !ThumbFits(lib, header, trusted)
                && (header.at["x5t#S256"].Str? ==> Ascii(header.at["x5t#S256"].s))))
      && (f == Failed(BadCertX5u) <==> ThumbFits(lib, header, trusted) && !lib.validNow(trusted[0]))
      && (forall leaf :: f == Found(leaf) <==>
            ThumbFits(lib, header, trusted) && leaf == trusted[0] && lib.validNow(leaf))
      && (f.Found? || f == Throws || f.problem in {BadURL, BadThumb, BadCertX5u})
  {
    if trusted != [] {
      UrlTextIsAscii(lib.sha256(lib.der(trusted[0])));
    }
    hide UrlEncode, Ascii;
  }

  lemma FieldSays<C(!new)>(lib: Library<C>, o: Dict<string, Json.Value>, k: string)
    ensures forall text :: Member(o, k, text) <==> Json.Get(o, k, Json.Str("")) == Json.Str(text)
    ensures forall text, d :: Member(o, k, text) ==>
      (DecodeObject(lib, Json.Get(o, k, Json.Str(""))) == Some(d) <==> Says(lib, text, d))
    ensures DecodeObject(lib, Json.Get(o, k, Json.Str(""))).Some? ==> Json.Get(o, k, Json.Str("")).Str?
  {
    hide UrlDecode;
  }

  lemma SignedIffChecks<C(!new)>(lib: Library<C>, o: Dict<string, Json.Value>, h: string, p: string, leaf: C)
    ensures Signed(lib, o, h, p, leaf) <==> Checks(lib, leaf, Json.Get(o, "signature", Json.Str("")), h + "." + p)
  {
    FieldSays(lib, o, "signature");
    hide UrlDecode;
  }

  /** The certificate taken, as far as the problem of there being none. */
  lemma LeafVerdict<C(!new)>(lib: Library<C>, header: Dict<string, Json.Value>, trusted: seq<C>)
    ensures var f := FindLeaf(lib, header, trusted);
      && (f == Failed(NoCert) <==> if "x5c" in header.at then !Json.Truthy(header.at["x5c"]) else "x5u" !in header.at)
      && (f == Failed(BadCertX5c) <==>
            && "x5c" in header.at && Json.Truthy(header.at["x5c"])
            && forall chain :: !GoodChain(lib, header, trusted, chain))
      && (f == Failed(BadURL) <==> Refers(header) && "x5t#S256" in header.at && trusted == [])
      && (f == Failed(BadThumb) <==>
            Refers(header)
            && ("x5t#S256" !in header.at
                || (trusted != [] && !ThumbFits(lib, header, trusted)
                    && (header.at["x5t#S256"].Str? ==> Ascii(header.at["x5t#S256"].s)))))
      && (f == Failed(BadCertX5u) <==> Refers(header) && ThumbFits(lib, header, trusted) && !lib.validNow(trusted[0]))
      && (forall leaf :: f == Found(leaf) <==> MaySign(lib, header, trusted, leaf))
      && (f.Failed? ==> f.problem in {NoCert, BadCertX5c, BadURL, BadThumb, BadCertX5u})
  {
    if "x5c" in header.at {
      ValueLeaf(lib, header, trusted);
    } else if "x5u" in header.at {
      ReferenceLeaf(lib, header, trusted);
      assert forall chain :: !GoodChain(lib, header, trusted, chain);
    } else {
      assert forall chain :: !GoodChain(lib, header, trusted, chain);
    }
    hide GoodChain, ThumbFits, Ascii;
  }

  /** Which branch is taken, in terms of the leaf. */
  lemma BranchIs<C(!new)>(lib: Library<C>, jws: seq<Byte>, o: Dict<string, Json.Value>, h: string, p: string,
      header: Dict<string, Json.Value>, payload: Dict<string, Json.Value>, trusted: seq<C>, allowUnsigned: bool)
    requires Opens(lib, jws, o, h, p, header, payload)
    ensures Verify(lib, jws, trusted, allowUnsigned) ==
      if "crit" in header.at then Reported(payload, OtherLogSignature)
      else if Uses(header, "none") then (if allowUnsigned then Accepted(payload) else Reported(payload, BadAlgorithm))
      else if !Uses(header, "EdDSA") then Reported(payload, BadAlgorithm)
      else
        match FindLeaf(lib, header, trusted)
        case Throws => Raised
        case Failed(problem) => Reported(payload, problem)
        case Found(leaf) =>
          if Checks(lib, leaf, Json.Get(o, "signature", Json.Str("")), h + "." + p) then Accepted(payload)
          else Reported(payload, BadSignature)
    ensures Uses(header, "none") ==> !Uses(header, "EdDSA")
    ensures Uses(header, "none") || Uses(header, "EdDSA") ==> "crit" !in header.at
  {
    FieldSays(lib, o, "protected");
    FieldSays(lib, o, "payload");
    assert "none"[0] != "EdDSA"[0];
    hide FindLeaf, DecodeObject, Says, Checks, Member;
  }

  lemma DeservesEarly<C(!new)>(lib: Library<C>, o: Dict<string, Json.Value>, h: string, p: string,
      header: Dict<string, Json.Value>, trusted: seq<C>, allowUnsigned: bool)
    requires !Uses(header, "EdDSA")
    ensures forall problem :: Deserves(lib, o, h, p, header, trusted, allowUnsigned, problem) <==>
      || (problem == OtherLogSignature && "crit" in header.at)
      || (problem == BadAlgorithm && "crit" !in header.at && !(Uses(header, "none") && allowUnsigned))
  {
    hide Uses, Refers, ThumbFits, MaySign, Signed, GoodChain, Ascii;
  }

  lemma DeservesLate<C(!new)>(lib: Library<C>, o: Dict<string, Json.Value>, h: string, p: string,
      header: Dict<string, Json.Value>, trusted: seq<C>, allowUnsigned: bool)
    requires Uses(header, "EdDSA")
    ensures forall problem :: Deserves(lib, o, h, p, header, trusted, allowUnsigned, problem) <==>
      || FindLeaf(lib, header, trusted) == Failed(problem)
      || (problem == BadSignature && FindLeaf(lib, header, trusted).Found?
          && !Checks(lib, FindLeaf(lib, header, trusted).cert, Json.Get(o, "signature", Json.Str("")), h + "." + p))
    ensures (exists leaf :: MaySign(lib, header, trusted, leaf) && Signed(lib, o, h, p, leaf)) <==>
      && FindLeaf(lib, header, trusted).Found?
      && Checks(lib, FindLeaf(lib, header, trusted).cert, Json.Get(o, "signature", Json.Str("")), h + "." + p)
  {
    LeafVerdict(lib, header, trusted);
    assert "crit" !in header.at;
    forall leaf {
      SignedIffChecks(lib, o, h, p, leaf);
    }
    hide FindLeaf, MaySign, Signed, Checks, Uses, GoodChain, ThumbFits, Refers, Ascii;
    if FindLeaf(lib, header, trusted).Found? {
      assert MaySign(lib, header, trusted, FindLeaf(lib, header, trusted).cert);
    }
  }

  /** The verdict on an object whose two signed fields decode: the payload with the problem it
      deserves, the payload alone when it deserves none, or an exception. */
  lemma VerdictIs<C(!new)>(lib: Library<C>, jws: seq<Byte>, o: Dict<string, Json.Value>, h: string, p: string,
      header: Dict<string, Json.Value>, payload: Dict<string, Json.Value>, trusted: seq<C>, allowUnsigned: bool)
    requires Opens(lib, jws, o, h, p, header, payload)
    ensures var verdict := Verify(lib, jws, trusted, allowUnsigned);
      && (forall problem :: verdict == Reported(payload, problem)
            <==> Deserves(lib, o, h, p, header, trusted, allowUnsigned, problem))
      && (verdict == Accepted(payload) <==>
            || (Uses(header, "none") && allowUnsigned)
            || (Uses(header, "EdDSA")
                && exists leaf :: MaySign(lib, header, trusted, leaf) && Signed(lib, o, h, p, leaf)))
      && (verdict.Raised? || verdict.payload == payload)
  {
    BranchIs(lib, jws, o, h, p, header, payload, trusted, allowUnsigned);
    hide Verify, FindLeaf, MaySign, Signed, Checks, Uses, Opens, Deserves;
    if Uses(header, "EdDSA") {
      DeservesLate(lib, o, h, p, header, trusted, allowUnsigned);
    } else {
      DeservesEarly(lib, o, h, p, header, trusted, allowUnsigned);
    }
  }

  /** Anything else is reported without a payload. */
  lemma UnreadableIsReported<C(!new)>(lib: Library<C>, jws: seq<Byte>, trusted: seq<C>, allowUnsigned: bool)
    requires forall o, h, p, header, payload :: !Opens(lib, jws, o, h, p, header, payload)
    ensures Verify(lib, jws, trusted, allowUnsigned) == Reported(Json.Empty(), OtherLogSignature)
  {
    if lib.loads(jws).Some? && lib.loads(jws).value.Obj? {
      DecodableOpens(lib, jws, lib.loads(jws).value.o);
    }
    hide Opens, DecodeObject, FindLeaf, Checks;
  }

  lemma DecodableOpens<C(!new)>(lib: Library<C>, jws: seq<Byte>, o: Dict<string, Json.Value>)
    requires lib.loads(jws) == Some(Json.Obj(o))
    ensures
      && DecodeObject(lib, Json.Get(o, "protected", Json.Str(""))).Some?
      && DecodeObject(lib, Json.Get(o, "payload", Json.Str(""))).Some?
      ==> exists h, p, header, payload :: Opens(lib, jws, o, h, p, header, payload)
  {
    FieldSays(lib, o, "protected");
    FieldSays(lib, o, "payload");
    var x, y := Json.Get(o, "protected", Json.Str("")), Json.Get(o, "payload", Json.Str(""));
    hide DecodeObject, Says, Member;
    if DecodeObject(lib, x).Some? && DecodeObject(lib, y).Some? {
      assert Opens(lib, jws, o, x.s, y.s, DecodeObject(lib, x).value, DecodeObject(lib, y).value);
    }
  }

  // ---------------------------------------------------------------- what raises

  /** The thumbprint comparison that `hmac.compare_digest` refuses is reached. */
  predicate ForeignThumbprint<C>(header: Dict<string, Json.Value>, trusted: seq<C>) {
    && "crit" !in header.at && Json.Get(header, "alg", Json.Str("")) == Json.Str("EdDSA")
    && "x5c" !in header.at && "x5u" in header.at && "x5t#S256" in header.at && trusted != []
    && header.at["x5t#S256"].Str? && !Ascii(header.at["x5t#S256"].s)
  }

  /** `verify_jws` is documented to report every failure. It raises instead exactly when both
      fields decode and the signer's certificate is sent by reference, to a caller who has
      one, under a thumbprint outside ASCII. */
  lemma RaisesExactly<C(!new)>(lib: Library<C>, o: Dict<string, Json.Value>, trusted: seq<C>, allowUnsigned: bool)
    ensures var header := DecodeObject(lib, Json.Get(o, "protected", Json.Str("")));
      var payload := DecodeObject(lib, Json.Get(o, "payload", Json.Str("")));
      VerifyObject(lib, o, trusted, allowUnsigned).Raised? <==>
        header.Some? && payload.Some? && ForeignThumbprint(header.value, trusted)
  {
    hide DecodeObject, Checks, Walk, LoadChain, Entries, Ascii, Thumbprint;
  }

  /** Such a header, in an object whose payload is empty and whose signature is missing. */
  function ForeignHeader(): Dict<string, Json.Value> {
    Json.Empty().Put("alg", Json.Str("EdDSA")).Put("x5u", Json.Str("https://ca")).Put("x5t#S256", Json.Str("\U{E9}"))
  }

  lemma ForeignThumbprintRaises<C(!new)>(lib: Library<C>, leaf: C, allowUnsigned: bool)
    requires Lawful(lib, leaf)
    ensures var o := Envelope(UrlEncode(lib.dumps(Json.Obj(Json.Empty()))),
                              UrlEncode(lib.dumps(Json.Obj(ForeignHeader()))), "");
      Verify(lib, lib.dumps(Json.Obj(o)), [leaf], allowUnsigned) == Raised
  {
    var p := UrlEncode(lib.dumps(Json.Obj(Json.Empty())));
    var h := UrlEncode(lib.dumps(Json.Obj(ForeignHeader())));
    hide ForeignHeader, ForeignThumbprint, Texts, UrlEncode, Envelope, DecodeObject, VerifyObject;
    ForeignFieldsAreTexts();
    assert RoundTrips(lib, Json.Obj(Json.Empty())) && RoundTrips(lib, Json.Obj(ForeignHeader()));
    FieldDecodes(lib, Json.Empty());
    FieldDecodes(lib, ForeignHeader());
    ForeignHeaderIsForeign(leaf);
    ForeignEnvelopeRaises(lib, p, h, ForeignHeader(), Json.Empty(), [leaf], allowUnsigned);
    EnvelopeRoundTrips(lib, leaf, p, h, "");
  }

  lemma ForeignEnvelopeRaises<C(!new)>(lib: Library<C>, p: string, h: string, header: Dict<string, Json.Value>,
      payload: Dict<string, Json.Value>, trusted: seq<C>, allowUnsigned: bool)
    requires DecodeObject(lib, Json.Str(h)) == Some(header) && DecodeObject(lib, Json.Str(p)) == Some(payload)
    requires ForeignThumbprint(header, trusted)
    ensures VerifyObject(lib, Envelope(p, h, ""), trusted, allowUnsigned) == Raised
  {
    EnvelopeFields(p, h, "");
    RaisesExactly(lib, Envelope(p, h, ""), trusted, allowUnsigned);
    hide Envelope, VerifyObject, DecodeObject, ForeignThumbprint;
  }

  lemma ForeignFieldsAreTexts()
    ensures Texts(Json.Obj(Json.Empty())) && Texts(Json.Obj(ForeignHeader()))
  {
  }

  lemma ForeignHeaderIsForeign<C>(leaf: C)
    ensures ForeignThumbprint(ForeignHeader(), [leaf])
  {
    var header := ForeignHeader();
    assert header.at["x5t#S256"].s[0] == '\U{E9}';
  }
}

/** Password hashes in the PHC string form: printing, parsing and verifying. `Kdf` stands for Argon2id. */
module Argon2id {
  import opened Common
  import opened Text
  import opened Base64
  import opened Decimal

  datatype Params = Params(time: nat, memory: nat, threads: nat)

  /** Password, salt, parameters and key length to key. */
  type Kdf = (string, seq<byte>, Params, nat) -> seq<byte>

  datatype Outcome<+T> = Value(value: T) | Failure(message: string)

  /** The algorithm version of section 3.1 of RFC 9106, 0x13. */
  const VERSION: nat := 19
  const DEFAULTS := Params(3, 65536, 2)
  const KEY_LENGTH: nat := 32

  const UINT32: nat := 0x1_0000_0000
  const UINT8: nat := 0x100

  function VersionPart(): string {
    "v=" + Print(VERSION)
  }

  function ParamsPart(p: Params): string {
    "m=" + (Print(p.memory) + (",t=" + (Print(p.time) + (",p=" + (Print(p.threads) + "")))))
  }

  /** The `Sprintf` of `HashPassword`. */
  function Format(p: Params, salt: seq<byte>, hash: seq<byte>): string {
    "$argon2id$" + (VersionPart() + "$" + (ParamsPart(p) + "$" + (Encode(salt) + "$" + Encode(hash))))
  }

  /** `salt` is what the random source returned, if it did. */
  function HashPassword(kdf: Kdf, password: string, salt: Option<seq<byte>>): Outcome<string> {
    if TrimSpace(password) == "" then Failure("password required")
    else
      match salt
      case None => Failure("read salt")
      case Some(bs) => Value(Format(DEFAULTS, bs, kdf(password, bs, DEFAULTS, KEY_LENGTH)))
  }

  function Literal(s: string, text: string): Option<string> {
    if text <= s then Some(s[|text|..]) else None
  }

  /** A literal, then an unsigned `%d`. */
  function ScanField(s: string, text: string, bound: nat): Option<(nat, string)> {
    match Literal(s, text) case None => None case Some(t) => ScanUint(t, bound)
  }

  /** `Sscanf` with "v=%d". */
  function ScanVersion(s: string): Option<int> {
    match Literal(s, "v=")
    case None => None
    case Some(t) => match ScanInt(t) case None => None case Some((v, _)) => Some(v)
  }

  /** `Sscanf` with "m=%d,t=%d,p=%d"; what follows is not looked at. */
  function ScanParams(s: string): Option<Params> {
    match ScanField(s, "m=", UINT32)
    case None => None
    case Some((memory, s1)) =>
      match ScanField(s1, ",t=", UINT32)
      case None => None
      case Some((time, s2)) =>
        match ScanField(s2, ",p=", UINT8)
        case None => None
        case Some((threads, _)) => Some(Params(time, memory, threads))
  }

  /** `parseArgon2idHash`. */
  function Parse(encoded: string): Outcome<(Params, seq<byte>, seq<byte>)> {
    ParseParts(Split(encoded, '$'))
  }

  function ParseParts(parts: seq<string>): Outcome<(Params, seq<byte>, seq<byte>)> {
    if |parts| != 6 then Failure("invalid hash format")
    else if parts[1] != "argon2id" then Failure("invalid hash algorithm")
    else
      match ScanVersion(parts[2])
      case None => Failure("invalid hash version")
      case Some(v) =>
        if v != VERSION then Failure("incompatible hash version")
        else
          match ScanParams(parts[3])
          case None => Failure("invalid hash params")
          case Some(p) => ParseBytes(p, parts[4], parts[5])
  }

  function ParseBytes(p: Params, saltText: string, hashText: string): Outcome<(Params, seq<byte>, seq<byte>)> {
    match Decode(saltText)
    case None => Failure("invalid salt encoding")
    case Some(salt) =>
      match Decode(hashText)
      case None => Failure("invalid hash encoding")
      case Some(hash) => if |hash| == 0 then Failure("invalid hash length") else Value((p, salt, hash))
  }

  function VerifyPassword(kdf: Kdf, password: string, encoded: string): Outcome<bool> {
    if TrimSpace(password) == "" then Failure("password required")
    else if TrimSpace(encoded) == "" then Failure("encoded hash required")
    else
      match Parse(encoded)
      case Failure(message) => Failure(message)
      case Value((p, salt, hash)) => Value(kdf(password, salt, p, |hash|) == hash)
  }

  // ----- Scanning what was printed -----

  lemma {:induction false} FieldRoundTrip(text: string, n: nat, rest: string, bound: nat)
    requires n < bound && (rest == "" || !IsDigit(rest[0]))
    ensures ScanField(text + (Print(n) + rest), text, bound) == Some((n, rest))
  {
    assert (text + (Print(n) + rest))[|text|..] == Print(n) + rest;
    ScanPrinted(n, rest, bound);
  }

  predicate InRange(p: Params) {
    p.time < UINT32 && p.memory < UINT32 && p.threads < UINT8
  }

  lemma {:induction false} ParamsRoundTrip(p: Params)
    requires InRange(p)
    ensures ScanParams(ParamsPart(p)) == Some(p)
  {
    var s2 := ",p=" + (Print(p.threads) + "");
    var s1 := ",t=" + (Print(p.time) + s2);
    FieldRoundTrip("m=", p.memory, s1, UINT32);
    FieldRoundTrip(",t=", p.time, s2, UINT32);
    FieldRoundTrip(",p=", p.threads, "", UINT8);
  }

  lemma {:induction false} VersionRoundTrip()
    ensures ScanVersion(VersionPart()) == Some(VERSION)
  {
    ScanPrinted(VERSION, "", UINT8);
    assert VersionPart()[2..] == Print(VERSION) && Print(VERSION) + "" == Print(VERSION);
  }

  // ----- The parts -----

  lemma {:induction false} PrintHasNoDollar(n: nat)
    ensures '$' !in Print(n)
  {
    PrintIsDigits(n);
  }

  lemma {:induction false} ParamsHaveNoDollar(p: Params)
    ensures '$' !in ParamsPart(p) && '$' !in VersionPart()
  {
    PrintHasNoDollar(p.memory);
    PrintHasNoDollar(p.time);
    PrintHasNoDollar(p.threads);
    PrintHasNoDollar(VERSION);
  }

  lemma {:induction false} JoinSix(a: string, b: string, c: string, d: string)
    ensures "$argon2id$" + (a + "$" + (b + "$" + (c + "$" + d))) == Join(["", "argon2id", a, b, c, d], '$')
  {
    var parts := ["", "argon2id", a, b, c, d];
    assert parts[5..] == [d];
    assert parts[4..][1..] == parts[5..] && parts[3..][1..] == parts[4..] && parts[2..][1..] == parts[3..];
    assert parts[1..][1..] == parts[2..];
    assert Join(parts[4..], '$') == c + "$" + d;
    var rest := a + "$" + (b + "$" + (c + "$" + d));
    assert Join(parts[2..], '$') == rest;
    assert Join(parts[1..], '$') == "argon2id" + "$" + rest;
    assert "$argon2id$" + rest == "" + "$" + ("argon2id" + "$" + rest);
  }

  lemma {:induction false} SplitSix(a: string, b: string, c: string, d: string)
    requires '$' !in a && '$' !in b && '$' !in c && '$' !in d
    ensures Split("$argon2id$" + (a + "$" + (b + "$" + (c + "$" + d))), '$') == ["", "argon2id", a, b, c, d]
  {
    JoinSix(a, b, c, d);
    SplitJoin(["", "argon2id", a, b, c, d], '$');
    SplitEachClean(["", "argon2id", a, b, c, d], '$');
  }

  lemma {:induction false} PartsParse(v: string, q: string, x: string, y: string, p: Params, salt: seq<byte>,
                                      hash: seq<byte>)
    requires ScanVersion(v) == Some(VERSION) && ScanParams(q) == Some(p) && Decode(x) == Some(salt)
    requires Decode(y) == Some(hash)
    ensures ParseParts(["", "argon2id", v, q, x, y])
         == if hash == [] then Failure("invalid hash length") else Value((p, salt, hash))
  {
    var parts := ["", "argon2id", v, q, x, y];
    assert parts[1] == "argon2id" && parts[2] == v && parts[3] == q && parts[4] == x && parts[5] == y;
  }

  // ----- Main results -----

  /** Parsing a printed hash returns exactly what was printed, for all parameters in range, every salt
      and every hash but the empty one, which is refused. */
  lemma {:induction false} ParseFormat(p: Params, salt: seq<byte>, hash: seq<byte>)
    requires InRange(p)
    ensures Parse(Format(p, salt, hash))
            == if hash == [] then Failure("invalid hash length") else Value((p, salt, hash))
  {
    var v, q, x, y := VersionPart(), ParamsPart(p), Encode(salt), Encode(hash);
    ParamsHaveNoDollar(p);
    Base64RoundTrip(salt);
    Base64RoundTrip(hash);
    SplitSix(v, q, x, y);
    VersionRoundTrip();
    ParamsRoundTrip(p);
    PartsParse(v, q, x, y, p, salt, hash);
  }

  /** Six parts between dollar signs, of which all but the first are looked at. */
  predicate WellFormed(parts: seq<string>, p: Params, salt: seq<byte>, hash: seq<byte>) {
    && |parts| == 6 && parts[1] == "argon2id" && ScanVersion(parts[2]) == Some(19) && ScanParams(parts[3]) == Some(p)
    && Decode(parts[4]) == Some(salt) && Decode(parts[5]) == Some(hash) && hash != []
  }

  ghost predicate Spells(encoded: string, parts: seq<string>) {
    Join(parts, '$') == encoded && forall i :: 0 <= i < |parts| ==> '$' !in parts[i]
  }

  /** Exactly which strings parse, and to what: those that spell six well-formed parts. */
  lemma {:induction false} ParsesIff(encoded: string, p: Params, salt: seq<byte>, hash: seq<byte>)
    ensures Parse(encoded) == Value((p, salt, hash)) <==>
            exists parts :: Spells(encoded, parts) && WellFormed(parts, p, salt, hash)
  {
    var own := Split(encoded, '$');
    JoinSplit(encoded, '$');
    forall i | 0 <= i < |own| ensures '$' !in own[i] {
      SplitParts(encoded, '$', i);
    }
    assert Spells(encoded, own);
    if parts :| Spells(encoded, parts) && WellFormed(parts, p, salt, hash) {
      SplitJoin(parts, '$');
      SplitEachClean(parts, '$');
      assert parts == own;
    }
    assert Parse(encoded) == Value((p, salt, hash)) <==> WellFormed(own, p, salt, hash);
  }

  lemma {:induction false} NotBlank(s: string)
    requires s != "" && !IsSpace(s[0])
    ensures TrimRight(s) != ""
  {
    if |s| > 1 && IsSpace(s[|s| - 1]) { NotBlank(s[..|s| - 1]); }
  }

  /** Every answer of verifying, for every password and every string: it is true exactly if the password is not
      blank and the string parses to parameters, salt and hash whose key the password derives. */
  lemma {:induction false} VerifiesIff(kdf: Kdf, password: string, encoded: string)
    ensures VerifyPassword(kdf, password, encoded) == Value(true) <==>
            && TrimSpace(password) != "" && TrimSpace(encoded) != "" && Parse(encoded).Value?
            && var (p, salt, hash) := Parse(encoded).value;
               kdf(password, salt, p, |hash|) == hash
    ensures VerifyPassword(kdf, password, encoded).Failure? <==>
            TrimSpace(password) == "" || TrimSpace(encoded) == "" || Parse(encoded).Failure?
    ensures TrimSpace(password) == "" ==> VerifyPassword(kdf, password, encoded) == Failure("password required")
  {
  }

  /** Hashing fails exactly for a blank password or without a salt, and else prints the parameters 3, 65536 and 2,
      the salt and a key of 32 bytes in their places. */
  lemma {:induction false} HashesIff(kdf: Kdf, password: string, salt: Option<seq<byte>>)
    ensures HashPassword(kdf, password, salt).Value? <==> TrimSpace(password) != "" && salt.Some?
    ensures HashPassword(kdf, password, salt).Value? ==>
              HashPassword(kdf, password, salt).value
              == "$argon2id$v=19$m=65536,t=3,p=2$" + (Encode(salt.value) + ("$"
                 + Encode(kdf(password, salt.value, Params(3, 65536, 2), 32))))
  {
    if TrimSpace(password) != "" && salt.Some? {
      DefaultsText();
      var x, y := Encode(salt.value), Encode(kdf(password, salt.value, DEFAULTS, KEY_LENGTH));
      Glue("v=19", "m=65536,t=3,p=2", x, y);
    }
  }

  lemma {:induction false} Glue(v: string, q: string, x: string, y: string)
    ensures "$argon2id$" + (v + "$" + (q + "$" + (x + "$" + y))) == "$argon2id$" + v + "$" + q + "$" + (x + ("$" + y))
  {
  }

  lemma {:induction false} DefaultsText()
    ensures VersionPart() == "v=19" && ParamsPart(DEFAULTS) == "m=65536,t=3,p=2"
  {
    assert Print(19) == "19" && Print(3) == "3" && Print(2) == "2";
    assert Print(65) == "65";
    assert Print(655) == "655";
    assert Print(6553) == "6553";
    assert Print(65536) == "65536";
    assert "p=2" + "" == "p=2";
  }

  /** Verifying any password against a stored hash compares the two keys: the password itself always
      passes, and another one passes exactly if it derives the same key. */
  lemma {:induction false} VerifyStored(kdf: Kdf, stored: string, tried: string, salt: seq<byte>)
    requires TrimSpace(stored) != "" && TrimSpace(tried) != ""
    requires |kdf(stored, salt, DEFAULTS, KEY_LENGTH)| == KEY_LENGTH
    ensures HashPassword(kdf, stored, Some(salt)).Value?
    ensures VerifyPassword(kdf, tried, HashPassword(kdf, stored, Some(salt)).value)
         == Value(kdf(tried, salt, DEFAULTS, KEY_LENGTH) == kdf(stored, salt, DEFAULTS, KEY_LENGTH))
  {
    var hash := kdf(stored, salt, DEFAULTS, KEY_LENGTH);
    ParseFormat(DEFAULTS, salt, hash);
    var encoded := Format(DEFAULTS, salt, hash);
    assert encoded[0] == '$';
    NotBlank(encoded);
    assert TrimLeft(encoded) == encoded;
  }

  lemma {:induction false} VerifyOwnPassword(kdf: Kdf, password: string, salt: seq<byte>)
    requires TrimSpace(password) != "" && |kdf(password, salt, DEFAULTS, KEY_LENGTH)| == KEY_LENGTH
    ensures HashPassword(kdf, password, Some(salt)).Value?
    ensures VerifyPassword(kdf, password, HashPassword(kdf, password, Some(salt)).value) == Value(true)
  {
    VerifyStored(kdf, password, password, salt);
  }
}

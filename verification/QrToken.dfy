/**
 Signed QR tokens: the printer, the parser and the verifier of the token string.

 SHA-256, HMAC and the truncated attendee hash are arbitrary functions of `Crypto`; what is assumed of
 them is spelled out in `Sound`.
 */
module QrToken {
  import opened Seqs
  import opened Types
  import opened Charter

  datatype Crypto = Crypto(sha256: string -> string, hmac: string -> string, attendeeHash: string -> string)

  predicate ColonFree(s: string) {
    forall i :: 0 <= i < |s| ==> s[i] != ':'
  }

  /** SHA-256 does not collide; signatures and attendee hashes are hexadecimal, so hold no colon. */
  ghost predicate Sound(c: Crypto) {
    && (forall a, b :: c.sha256(a) == c.sha256(b) ==> a == b)
    && (forall s :: ColonFree(c.hmac(s)))
    && (forall s :: ColonFree(c.attendeeHash(s)))
  }

  const EVENT_TABLES := {"events", "greek_rush_events"}
  const ATTENDEE_PREFIX := "a="

  // ---------------------------------------------------------------- decimal integers

  function Digit(d: nat): (ch: char)
    requires d < 10
    ensures ch != ':' && '0' <= ch <= '9' && ch as int - '0' as int == d
  {
    (('0' as int) + d) as char
  }

  function Decimal(n: nat): (s: string)
    ensures |s| > 0
    ensures forall i :: 0 <= i < |s| ==> '0' <= s[i] <= '9'
  {
    if n < 10 then [Digit(n)] else Decimal(n / 10) + [Digit(n % 10)]
  }

  /** `str(n)` */
  function Print(n: int): (s: string)
    ensures ColonFree(s)
  {
    if n < 0 then "-" + Decimal(-n) else Decimal(n)
  }

  predicate Blank(ch: char) {
    ch == ' ' || 9 <= ch as int <= 13
  }

  function Strip(s: string): string
    decreases |s|
  {
    if s != "" && Blank(s[0]) then Strip(s[1..])
    else if s != "" && Blank(s[|s| - 1]) then Strip(s[..|s| - 1])
    else s
  }

  /** Value of a digit string in which single underscores may separate digits. */
  function Digits(s: string): Option<nat> {
    if s == "" then None
    else
      var last := s[|s| - 1];
      if !('0' <= last <= '9') then None
      else
        var d := last as int - '0' as int;
        if |s| == 1 then Some(d)
        else
          var init := if s[|s| - 2] == '_' then s[..|s| - 2] else s[..|s| - 1];
          match Digits(init)
          case None => None
          case Some(n) => Some(10 * n + d)
  }

  /** The number that a string spells after an optional sign. */
  function Signed(t: string): Option<int> {
    if t == "" || !(t[0] == '-' || t[0] == '+') then Digits(t)
    else
      match Digits(t[1..])
      case None => None
      case Some(n) =>
        var magnitude: int := n;
        Some(if t[0] == '-' then -magnitude else magnitude)
  }

  /** `int(s)`, which also accepts blanks around the number, a sign, leading zeros and underscores. */
  function ParseInt(s: string): Option<int> {
    Signed(Strip(s))
  }

  /** A printed number has no leading zero, and a sign exactly if it is negative. */
  lemma {:induction false} DecimalCanonical(n: nat)
    ensures Decimal(n)[0] == '0' <==> n == 0
    ensures n < 10 ==> |Decimal(n)| == 1
  {
    if n >= 10 { DecimalCanonical(n / 10); }
  }

  lemma PrintCanonical(n: int)
    ensures Print(n)[0] == '-' <==> n < 0
    ensures forall i :: 0 <= i < |Print(n)| && (i > 0 || n >= 0) ==> '0' <= Print(n)[i] <= '9'
    ensures Print(n)[0] == '0' ==> Print(n) == "0"
    ensures Print(n)[0] == '-' ==> |Print(n)| > 1 && Print(n)[1] != '0'
  {
    DecimalCanonical(if n < 0 then -n else n);
  }

  /** Digits with single underscores between them. */
  predicate Numeral(s: string) {
    && s != "" && s[0] != '_' && s[|s| - 1] != '_'
    && (forall i :: 0 <= i < |s| ==> '0' <= s[i] <= '9' || s[i] == '_')
    && (forall i, j :: 0 <= i < |s| && j == i + 1 < |s| ==> s[i] != '_' || s[j] != '_')
  }

  lemma {:induction false} DigitsExact(s: string)
    ensures Digits(s).Some? <==> Numeral(s)
    decreases |s|
  {
    if |s| > 1 {
      DigitsExact(if s[|s| - 2] == '_' then s[..|s| - 2] else s[..|s| - 1]);
    }
  }

  /** Blanks, tabs, line feeds and their like. */
  predicate White(ch: char) {
    ch == ' ' || ch == '\t' || ch == '\n' || ch == '\r' || ch as int == 11 || ch as int == 12
  }

  /** s[i..j] is s without the blanks at its ends. */
  ghost predicate Trimmed(s: string, i: nat, j: nat) {
    && i <= j <= |s| && (forall k :: 0 <= k < i || j <= k < |s| ==> White(s[k]))
    && (i < j ==> !White(s[i]) && !White(s[j - 1]))
  }

  lemma {:induction false} StripTrims(s: string) returns (i: nat, j: nat)
    ensures Trimmed(s, i, j) && Strip(s) == s[i..j]
    decreases |s|
  {
    var n := |s|;
    if n > 0 && Blank(s[0]) {
      var a, b := StripTrims(s[1..]);
      i, j := a + 1, b + 1;
      assert forall k :: 1 <= k < n ==> s[k] == s[1..][k - 1];
    } else if n > 0 && Blank(s[n - 1]) {
      i, j := StripTrims(s[..n - 1]);
      assert forall k :: 0 <= k < n - 1 ==> s[k] == s[..n - 1][k];
    } else {
      i, j := 0, n;
    }
  }

  /** `int` reads exactly the numerals with an optional sign, between blanks. */
  lemma ParseIntExact(s: string) returns (i: nat, j: nat)
    ensures Trimmed(s, i, j)
    ensures ParseInt(s).Some?
            <==> Numeral(s[i..j]) || (i < j && (s[i] == '+' || s[i] == '-') && Numeral(s[i + 1..j]))
  {
    i, j := StripTrims(s);
    DigitsExact(s[i..j]);
    if i < j {
      assert s[i..j][1..] == s[i + 1..j];
      DigitsExact(s[i + 1..j]);
    }
  }

  lemma {:induction false} DigitsOfDecimal(n: nat)
    ensures Digits(Decimal(n)) == Some(n)
  {
    if n >= 10 {
      DigitsOfDecimal(n / 10);
      var s := Decimal(n);
      assert s[..|s| - 1] == Decimal(n / 10);
      assert s[|s| - 2] == Decimal(n / 10)[|s| - 2];
    }
  }

  lemma StripSolid(s: string)
    requires s != "" && !Blank(s[0]) && !Blank(s[|s| - 1])
    ensures Strip(s) == s
  {
  }

  lemma SignedMinus(digits: string, n: int)
    requires Digits(digits) == Some(n)
    ensures Signed("-" + digits) == Some(-n)
  {
    assert ("-" + digits)[1..] == digits;
  }

  lemma SolidPrint(n: int)
    ensures Strip(Print(n)) == Print(n)
  {
    var s := Print(n);
    var digits := Decimal(if n < 0 then -n else n);
    assert s[|s| - 1] == digits[|digits| - 1];
    StripSolid(s);
  }

  lemma ParsePrinted(n: int)
    ensures ParseInt(Print(n)) == Some(n)
  {
    SolidPrint(n);
    if n < 0 {
      DigitsOfDecimal(-n);
      SignedMinus(Decimal(-n), -n);
    } else {
      DigitsOfDecimal(n);
    }
  }

  lemma {:induction false} DigitsLeadingZero(n: nat)
    ensures Digits("0" + Decimal(n)) == Some(n)
  {
    var s := "0" + Decimal(n);
    if n < 10 {
      assert s == ['0', Digit(n)];
      assert s[..1] == ['0'];
      assert Digits(['0']) == Some(0);
    } else {
      DigitsLeadingZero(n / 10);
      var init := "0" + Decimal(n / 10);
      assert s == init + [Digit(n % 10)];
      assert s[..|s| - 1] == init;
      assert s[|s| - 2] == init[|init| - 1] == Decimal(n / 10)[|Decimal(n / 10)| - 1];
    }
  }

  /** The parser is not injective: a printed number may gain a leading zero. */
  lemma LeadingZero(n: nat)
    ensures ParseInt("0" + Decimal(n)) == Some(n) && "0" + Decimal(n) != Print(n)
  {
    var s := "0" + Decimal(n);
    DigitsLeadingZero(n);
    assert s[|s| - 1] == Decimal(n)[|Decimal(n)| - 1];
    StripSolid(s);
    assert |s| == |Print(n)| + 1;
  }

  // ---------------------------------------------------------------- splitting at colons

  /** `s.split(":")` */
  function Split(s: string): (parts: seq<string>)
    ensures |parts| >= 1
  {
    if s == "" then [""]
    else
      var rest := Split(s[1..]);
      if s[0] == ':' then [""] + rest else [[s[0]] + rest[0]] + rest[1..]
  }

  lemma {:induction false} SplitHead(p: string, rest: string)
    requires ColonFree(p)
    ensures Split(p + (":" + rest)) == [p] + Split(rest)
  {
    if p == "" {
      assert p + (":" + rest) == ":" + rest;
      assert (":" + rest)[1..] == rest;
    } else {
      SplitHead(p[1..], rest);
      assert (p + (":" + rest))[1..] == p[1..] + (":" + rest);
      assert p == [p[0]] + p[1..];
    }
  }

  lemma {:induction false} SplitWhole(p: string)
    requires ColonFree(p)
    ensures Split(p) == [p]
  {
    if p != "" {
      SplitWhole(p[1..]);
      assert p == [p[0]] + p[1..];
    }
  }

  // ---------------------------------------------------------------- printing and parsing tokens

  /** The signed fields of a token, as the parser recovers them. */
  datatype Fields = Fields(table: string, eventId: int, nonce: string, expires: int, fragment: Option<string>)

  function Payload(f: Fields): string {
    var base := f.table + (":" + (Print(f.eventId) + (":" + (f.nonce + (":" + Print(f.expires))))));
    if f.fragment.Some? then base + (":" + f.fragment.value) else base
  }

  /** What `mint_token` prints for these fields. */
  function Raw(c: Crypto, f: Fields): string {
    Payload(f) + (":" + c.hmac(Payload(f)))
  }

  datatype Parsed = Parsed(fields: Fields, signature: string)

  /** The format checks of `verify_token`, in order. */
  function Parse(raw: string): Option<Parsed> {
    var parts := Split(raw);
    if |parts| != 5 && |parts| != 6 then None
    else if |parts| == 6 && !(ATTENDEE_PREFIX <= parts[4]) then None
    else if parts[0] !in EVENT_TABLES then None
    else
      match (ParseInt(parts[1]), ParseInt(parts[3]))
      case (Some(eventId), Some(expires)) =>
        Some(Parsed(Fields(parts[0], eventId, parts[2], expires, if |parts| == 6 then Some(parts[4]) else None),
                    parts[|parts| - 1]))
      case _ => None
  }

  /** Fields a mint can produce: a known table, a colon-free nonce, a fragment that carries a hash. */
  predicate Mintable(f: Fields) {
    && f.table in EVENT_TABLES && ColonFree(f.nonce)
    && (f.fragment.Some? ==> ColonFree(f.fragment.value) && ATTENDEE_PREFIX <= f.fragment.value)
  }

  /** A raw string spelled with the given texts for the two integers. */
  function Spelled(f: Fields, idText: string, expText: string, signature: string): string {
    f.table + (":" + (idText + (":" + (f.nonce + (":" + (expText + (":" +
      (if f.fragment.Some? then f.fragment.value + (":" + signature) else signature))))))))
  }

  lemma PushTail(p: string, rest: string, tail: string)
    ensures (p + (":" + rest)) + tail == p + (":" + (rest + tail))
  {
  }

  lemma RawIsSpelled(c: Crypto, f: Fields)
    ensures Raw(c, f) == Spelled(f, Print(f.eventId), Print(f.expires), c.hmac(Payload(f)))
  {
    var (id, exp, end) := (Print(f.eventId), Print(f.expires), ":" + c.hmac(Payload(f)));
    var base := f.table + (":" + (id + (":" + (f.nonce + (":" + exp)))));
    if f.fragment.Some? { PushTail(base, f.fragment.value, end); }
    var tail := if f.fragment.Some? then ":" + (f.fragment.value + end) else end;
    PushTail(f.table, id + (":" + (f.nonce + (":" + exp))), tail);
    PushTail(id, f.nonce + (":" + exp), tail);
    PushTail(f.nonce, exp, tail);
  }

  lemma TablesColonFree(table: string)
    requires table in EVENT_TABLES
    ensures ColonFree(table)
  {
  }

  function Parts(f: Fields, idText: string, expText: string, signature: string): seq<string> {
    [f.table, idText, f.nonce, expText] + (if f.fragment.Some? then [f.fragment.value] else []) + [signature]
  }

  lemma SplitSpelled(f: Fields, idText: string, expText: string, signature: string)
    requires Mintable(f) && ColonFree(idText) && ColonFree(expText) && ColonFree(signature)
    ensures Split(Spelled(f, idText, expText, signature)) == Parts(f, idText, expText, signature)
  {
    TablesColonFree(f.table);
    var tail := if f.fragment.Some? then f.fragment.value + (":" + signature) else signature;
    SplitWhole(signature);
    if f.fragment.Some? { SplitHead(f.fragment.value, signature); }
    SplitHead(expText, tail);
    SplitHead(f.nonce, expText + (":" + tail));
    SplitHead(idText, f.nonce + (":" + (expText + (":" + tail))));
    SplitHead(f.table, idText + (":" + (f.nonce + (":" + (expText + (":" + tail))))));
  }

  /** Any spelling of the two integers parses to the same fields. */
  lemma ParseSpelled(f: Fields, idText: string, expText: string, signature: string)
    requires Mintable(f) && ColonFree(idText) && ColonFree(expText) && ColonFree(signature)
    requires ParseInt(idText) == Some(f.eventId) && ParseInt(expText) == Some(f.expires)
    ensures Parse(Spelled(f, idText, expText, signature)) == Some(Parsed(f, signature))
  {
    SplitSpelled(f, idText, expText, signature);
  }

  function Join(parts: seq<string>): string
    requires parts != []
  {
    if |parts| == 1 then parts[0] else parts[0] + (":" + Join(parts[1..]))
  }

  lemma {:induction false} JoinSplit(s: string)
    ensures Join(Split(s)) == s
    ensures forall i :: 0 <= i < |Split(s)| ==> ColonFree(Split(s)[i])
  {
    if s != "" {
      var (rest, parts) := (Split(s[1..]), Split(s));
      JoinSplit(s[1..]);
      if s[0] == ':' {
        assert parts[1..] == rest;
        assert Join(parts) == "" + (":" + s[1..]) == s;
      } else {
        assert parts[1..] == rest[1..];
        HeadGrows(s[0], rest);
        assert Join(parts) == [s[0]] + s[1..] == s;
      }
    }
  }

  lemma HeadGrows(ch: char, rest: seq<string>)
    requires rest != []
    ensures Join([[ch] + rest[0]] + rest[1..]) == [ch] + Join(rest)
  {
    var parts := [[ch] + rest[0]] + rest[1..];
    assert parts[1..] == rest[1..];
    if |rest| > 1 {
      assert ([ch] + rest[0]) + (":" + Join(rest[1..])) == [ch] + (rest[0] + (":" + Join(rest[1..])));
    }
  }

  lemma JoinFive(parts: seq<string>)
    requires |parts| == 5
    ensures Join(parts) == parts[0] + (":" + (parts[1] + (":" + (parts[2] + (":" + (parts[3] + (":" + parts[4])))))))
  {
    assert parts[1..][1..] == parts[2..] && parts[2..][1..] == parts[3..] && parts[3..][1..] == parts[4..];
    assert Join(parts[4..]) == parts[4];
    assert Join(parts[3..]) == parts[3] + (":" + parts[4]);
    assert Join(parts[2..]) == parts[2] + (":" + Join(parts[3..]));
  }

  lemma JoinSix(parts: seq<string>)
    requires |parts| == 6
    ensures Join(parts) == parts[0] + (":" + (parts[1] + (":" + (parts[2] + (":" + (parts[3]
                           + (":" + (parts[4] + (":" + parts[5])))))))))
  {
    JoinFive(parts[1..]);
  }

  /** The string spells these fields with these texts for the two integers and this signature. */
  predicate Spells(raw: string, f: Fields, idText: string, expText: string, signature: string) {
    && Mintable(f) && ColonFree(idText) && ColonFree(expText) && ColonFree(signature)
    && ParseInt(idText) == Some(f.eventId) && ParseInt(expText) == Some(f.expires)
    && raw == Spelled(f, idText, expText, signature)
  }

  ghost predicate SpelledAs(raw: string, f: Fields, signature: string) {
    exists idText, expText :: Spells(raw, f, idText, expText, signature)
  }

  /** The parser reads exactly what spells a token, and reads what was spelled. */
  lemma ParseExact(raw: string, f: Fields, signature: string)
    ensures Parse(raw) == Some(Parsed(f, signature)) <==> SpelledAs(raw, f, signature)
  {
    if Parse(raw) == Some(Parsed(f, signature)) {
      var parts := Split(raw);
      JoinSplit(raw);
      if |parts| == 5 { JoinFive(parts); } else { JoinSix(parts); }
      assert Spells(raw, f, parts[1], parts[3], signature);
    }
    if SpelledAs(raw, f, signature) {
      var idText, expText :| Spells(raw, f, idText, expText, signature);
      ParseSpelled(f, idText, expText, signature);
    }
  }

  lemma NothingSpelled(f: Fields, signature: string)
    ensures !SpelledAs("", f, signature)
  {
    ParseExact("", f, signature);
  }

  /** Printing then parsing gives the fields and the signature back. */
  lemma ParseRaw(c: Crypto, f: Fields)
    requires Sound(c) && Mintable(f)
    ensures Parse(Raw(c, f)) == Some(Parsed(f, c.hmac(Payload(f))))
  {
    RawIsSpelled(c, f);
    ParsePrinted(f.eventId);
    ParsePrinted(f.expires);
    ParseSpelled(f, Print(f.eventId), Print(f.expires), c.hmac(Payload(f)));
  }

  /** Two mints printing the same string are mints of the same fields. */
  lemma RawInjective(c: Crypto, f: Fields, g: Fields)
    requires Sound(c) && Mintable(f) && Mintable(g) && Raw(c, f) == Raw(c, g)
    ensures f == g
  {
    ParseRaw(c, f);
    ParseRaw(c, g);
  }

  // ---------------------------------------------------------------- minting

  /** 32 hexadecimal characters in the service; only the absence of colons matters. */
  type Nonce = s: string | ColonFree(s) witness ""

  const MAX_TTL_MINUTES := 720

  function ByHash(hash: string): Token -> bool {
    (t: Token) => t.hash == hash
  }

  /** The row a mint stores for its fields. */
  predicate RowOf(c: Crypto, row: Token, f: Fields) {
    && Mintable(f)
    && row.hash == c.sha256(Raw(c, f)) && row.table == f.table && row.eventId == f.eventId
    && row.nonce == f.nonce && Trunc(row.expiresAt) == f.expires
  }

  ghost predicate UniqueHashes(tokens: seq<Token>) {
    forall i, j :: 0 <= i < j < |tokens| ==> tokens[i].hash != tokens[j].hash
  }

  ghost predicate Minted(c: Crypto, row: Token) {
    exists f :: RowOf(c, row, f)
  }

  /** The token table as `mint_token` and the UNIQUE constraint on the hash leave it. */
  ghost predicate Genuine(c: Crypto, tokens: seq<Token>) {
    UniqueHashes(tokens) && forall i :: 0 <= i < |tokens| ==> Minted(c, tokens[i])
  }

  datatype MintRequest = MintRequest(
    schoolId: string, table: string, eventId: nat, nonce: Nonce, ttlMinutes: int, singleUse: bool,
    attendee: Option<string>, issuedBy: string, now: real)

  datatype MintResult = MintOk(raw: string, id: nat) | MintRejected | MintCollision

  function ExpiresAt(rq: MintRequest): real {
    rq.now + (60 * rq.ttlMinutes) as real
  }

  function MintFields(c: Crypto, rq: MintRequest): Fields {
    Fields(rq.table, rq.eventId, rq.nonce, Trunc(ExpiresAt(rq)),
           if Truthy(rq.attendee) then Some(ATTENDEE_PREFIX + c.attendeeHash(rq.attendee.value)) else None)
  }

  function MintRow(c: Crypto, rq: MintRequest): Token {
    Token(rq.schoolId, rq.table, rq.eventId, c.sha256(Raw(c, MintFields(c, rq))), rq.nonce, ExpiresAt(rq),
          rq.singleUse, None, None, rq.issuedBy)
  }

  /** `mint_token`: argument checks, then an insert guarded by the UNIQUE hash. */
  function MintTx(c: Crypto, tokens: seq<Token>, rq: MintRequest): (seq<Token>, MintResult) {
    if rq.table !in EVENT_TABLES || rq.ttlMinutes <= 0 || rq.ttlMinutes > MAX_TTL_MINUTES then (tokens, MintRejected)
    else
      var row := MintRow(c, rq);
      if First(tokens, ByHash(row.hash)).Some? then (tokens, MintCollision)
      else (tokens + [row], MintOk(Raw(c, MintFields(c, rq)), |tokens|))
  }

  lemma MintedRow(c: Crypto, rq: MintRequest)
    requires Sound(c) && rq.table in EVENT_TABLES
    ensures RowOf(c, MintRow(c, rq), MintFields(c, rq))
  {
    var f := MintFields(c, rq);
    if f.fragment.Some? {
      assert ColonFree(c.attendeeHash(rq.attendee.value));
      assert f.fragment.value[..2] == ATTENDEE_PREFIX;
    }
  }

  /** What is signed: table, event, nonce and the second at which the minutes are over, with colons
      between, and the hash of the attendee if there is one. */
  function SignedText(c: Crypto, rq: MintRequest): string {
    rq.table + ":" + Print(rq.eventId) + ":" + rq.nonce + ":" + Print(Trunc(rq.now + (60 * rq.ttlMinutes) as real))
    + (if Given(rq.attendee) then ":a=" + c.attendeeHash(rq.attendee.value) else "")
  }

  lemma Chained(a: string, b: string, d: string, e: string)
    ensures a + (":" + (b + (":" + (d + (":" + e))))) == a + ":" + b + ":" + d + ":" + e
  {
  }

  lemma Tied(base: string, hash: string)
    ensures base + (":" + ("a=" + hash)) == base + (":a=" + hash)
    ensures base + "" == base
  {
    assert ":" + ("a=" + hash) == ":a=" + hash;
  }

  lemma PayloadText(c: Crypto, rq: MintRequest)
    ensures Payload(MintFields(c, rq)) == SignedText(c, rq)
  {
    var expires := Print(Trunc(rq.now + (60 * rq.ttlMinutes) as real));
    Chained(rq.table, Print(rq.eventId), rq.nonce, expires);
    Tied(rq.table + ":" + Print(rq.eventId) + ":" + rq.nonce + ":" + expires,
         if Given(rq.attendee) then c.attendeeHash(rq.attendee.value) else "");
  }

  lemma RawText(c: Crypto, rq: MintRequest)
    ensures Raw(c, MintFields(c, rq)) == SignedText(c, rq) + ":" + c.hmac(SignedText(c, rq))
  {
    PayloadText(c, rq);
    var (text, signature) := (SignedText(c, rq), c.hmac(SignedText(c, rq)));
    assert text + (":" + signature) == text + ":" + signature;
  }

  /** A mint goes through if and only if the table is known, the life time is 1 to 720 minutes and the
      string is new; the string is the signed text with its signature, and a row of its hash is added. */
  lemma MintOutcome(c: Crypto, tokens: seq<Token>, rq: MintRequest)
    ensures var ((tokens', r), raw) := (MintTx(c, tokens, rq), SignedText(c, rq) + ":" + c.hmac(SignedText(c, rq)));
            if (rq.table != "events" && rq.table != "greek_rush_events") || !(1 <= rq.ttlMinutes <= 720) then
              r == MintRejected && tokens' == tokens
            else if exists i :: 0 <= i < |tokens| && tokens[i].hash == c.sha256(raw) then
              r == MintCollision && tokens' == tokens
            else
              && r == MintOk(raw, |tokens|)
              && tokens' == tokens + [Token(rq.schoolId, rq.table, rq.eventId, c.sha256(raw), rq.nonce,
                                            rq.now + (60 * rq.ttlMinutes) as real, rq.singleUse, None, None,
                                            rq.issuedBy)]
  {
    RawText(c, rq);
  }

  lemma MintKeepsGenuine(c: Crypto, tokens: seq<Token>, rq: MintRequest)
    requires Sound(c) && Genuine(c, tokens)
    ensures Genuine(c, MintTx(c, tokens, rq).0)
  {
    var tokens' := MintTx(c, tokens, rq).0;
    if tokens' != tokens {
      MintedRow(c, rq);
      assert forall i :: 0 <= i < |tokens| ==> tokens'[i] == tokens[i];
      assert forall i :: 0 <= i < |tokens| ==> !ByHash(MintRow(c, rq).hash)(tokens[i]);
    }
  }

  /** The mint route: an administrator of the event's own school. */
  datatype MintCall = MintCall(
    actor: Actor, eventId: int, nonce: Nonce, ttlMinutes: int, singleUse: bool, attendee: Option<string>, now: real)

  datatype MintReply = Fresh(result: MintResult) | MintRefused(status: int)

  function MintRequestOf(call: MintCall): MintRequest
    requires call.eventId >= 0 && call.actor.schoolId.Some?
  {
    MintRequest(call.actor.schoolId.value, "events", call.eventId, call.nonce, call.ttlMinutes, call.singleUse,
                call.attendee, if Truthy(call.actor.userId) then call.actor.userId.value else "service", call.now)
  }

  function MintRouteTx(c: Crypto, events: seq<Event>, tokens: seq<Token>, call: MintCall): (seq<Token>, MintReply) {
    if !IsAdmin(call.actor) || !Truthy(call.actor.schoolId) then (tokens, MintRefused(403))
    else if !(0 <= call.eventId < |events|) || events[call.eventId].schoolId != call.actor.schoolId.value then
      (tokens, MintRefused(404))
    else
      var (tokens', result) := MintTx(c, tokens, MintRequestOf(call));
      (tokens', Fresh(result))
  }

  // ---------------------------------------------------------------- verifying

  datatype Status =
    | Ok | InvalidFormat | SignatureMismatch | Expired | NotFound | EventMismatch | AlreadyUsed | AttendeeMismatch

  datatype VerifyResult = VerifyResult(status: Status, row: Option<nat>)

  /** The attendee check: a fragment demands a claimed attendee with the embedded hash. */
  predicate BoundTo(c: Crypto, fragment: Option<string>, attendee: Option<string>) {
    fragment.Some? ==> Truthy(attendee) && fragment.value == ATTENDEE_PREFIX + c.attendeeHash(attendee.value)
  }

  /** `verify_token(consume=False)`, that is `peek_token`. */
  function Peek(c: Crypto, tokens: seq<Token>, raw: string, eventId: int, table: string,
                attendee: Option<string>, now: real): (r: VerifyResult)
    ensures r.row.Some? ==> r.row.value < |tokens|
    ensures r.status.Ok? ==> r.row.Some? && r.row == First(tokens, ByHash(c.sha256(raw)))
                             && !(tokens[r.row.value].singleUse && tokens[r.row.value].usedAt.Some?)
  {
    if table !in EVENT_TABLES || raw == "" then VerifyResult(InvalidFormat, None)
    else
      match Parse(raw)
      case None => VerifyResult(InvalidFormat, None)
      case Some(p) =>
        if p.fields.eventId != eventId || p.fields.table != table then VerifyResult(EventMismatch, None)
        else if c.hmac(Payload(p.fields)) != p.signature then VerifyResult(SignatureMismatch, None)
        else if !BoundTo(c, p.fields.fragment, attendee) then VerifyResult(AttendeeMismatch, None)
        else if p.fields.expires < Trunc(now) then VerifyResult(Expired, None)
        else
          match First(tokens, ByHash(c.sha256(raw)))
          case None => VerifyResult(NotFound, None)
          case Some(i) =>
            if tokens[i].singleUse && tokens[i].usedAt.Some? then VerifyResult(AlreadyUsed, Some(i))
            else VerifyResult(Ok, Some(i))
  }

  /** What acceptance means: row i was minted with fields f, `raw` is that very string, and the request
      fits the fields and the row. */
  predicate Admissible(c: Crypto, tokens: seq<Token>, raw: string, eventId: int, table: string,
                       attendee: Option<string>, now: real, i: nat, f: Fields) {
    && i < |tokens| && RowOf(c, tokens[i], f) && raw == Raw(c, f)
    && f.table == table && f.eventId == eventId
    && Trunc(now) <= f.expires
    && !(tokens[i].singleUse && tokens[i].usedAt.Some?)
    && BoundTo(c, f.fragment, attendee)
  }

  lemma FoundByHash(tokens: seq<Token>, i: nat)
    requires UniqueHashes(tokens) && i < |tokens|
    ensures First(tokens, ByHash(tokens[i].hash)) == Some(i)
  {
    assert ByHash(tokens[i].hash)(tokens[i]);
  }

  /** The verdict on a string that was minted, whatever the request. */
  lemma PeekMinted(c: Crypto, tokens: seq<Token>, f: Fields, eventId: int, table: string,
                   attendee: Option<string>, now: real, i: nat)
    requires Sound(c) && UniqueHashes(tokens) && i < |tokens| && RowOf(c, tokens[i], f)
    ensures var r := Peek(c, tokens, Raw(c, f), eventId, table, attendee, now);
            && (r.status.Ok? <==> Admissible(c, tokens, Raw(c, f), eventId, table, attendee, now, i, f))
            && (r.status.Ok? ==> r.row == Some(i))
  {
    ParseRaw(c, f);
    FoundByHash(tokens, i);
  }

  /** `peek_token` says OK for a string if and only if that exact string was minted and everything fits:
      table and event, expiry, single use, attendee. */
  lemma ExactAcceptance(c: Crypto, tokens: seq<Token>, raw: string, eventId: int, table: string,
                        attendee: Option<string>, now: real)
    requires Sound(c) && Genuine(c, tokens)
    ensures Peek(c, tokens, raw, eventId, table, attendee, now).status.Ok?
            <==> exists i: nat, f: Fields :: Admissible(c, tokens, raw, eventId, table, attendee, now, i, f)
  {
    var r := Peek(c, tokens, raw, eventId, table, attendee, now);
    if r.status.Ok? {
      var i := r.row.value;
      assert ByHash(c.sha256(raw))(tokens[i]);
      assert Minted(c, tokens[i]);
      var f :| RowOf(c, tokens[i], f);
      PeekMinted(c, tokens, f, eventId, table, attendee, now, i);
    }
    if i: nat, f: Fields :| Admissible(c, tokens, raw, eventId, table, attendee, now, i, f) {
      PeekMinted(c, tokens, f, eventId, table, attendee, now, i);
    }
  }

  /** An accepted string leads to the row of its own hash, minted for this event and not used up. */
  lemma AcceptedRow(c: Crypto, tokens: seq<Token>, raw: string, eventId: int, table: string,
                    attendee: Option<string>, now: real)
    requires Sound(c) && Genuine(c, tokens) && Peek(c, tokens, raw, eventId, table, attendee, now).status.Ok?
    ensures var t := tokens[Peek(c, tokens, raw, eventId, table, attendee, now).row.value];
            t.hash == c.sha256(raw) && t.eventId == eventId && t.table == table && !(t.singleUse && t.usedAt.Some?)
  {
    var i := Peek(c, tokens, raw, eventId, table, attendee, now).row.value;
    assert ByHash(c.sha256(raw))(tokens[i]);
    assert Minted(c, tokens[i]);
    var f :| RowOf(c, tokens[i], f);
    PeekMinted(c, tokens, f, eventId, table, attendee, now, i);
  }

  /** The verdict on a string that was minted, whoever asks for whatever event and whenever: a wrong event
      comes before a wrong attendee, that before the expiry, and that before the mark. */
  lemma MintedVerdict(c: Crypto, tokens: seq<Token>, f: Fields, eventId: int, table: string,
                      attendee: Option<string>, now: real, i: nat)
    requires Sound(c) && UniqueHashes(tokens) && i < |tokens| && RowOf(c, tokens[i], f)
    ensures Peek(c, tokens, Raw(c, f), eventId, table, attendee, now).status
            == if table != "events" && table != "greek_rush_events" then InvalidFormat
               else if table != f.table || eventId != f.eventId then EventMismatch
               else if f.fragment.Some?
                       && !(Given(attendee) && f.fragment.value == "a=" + c.attendeeHash(attendee.value))
               then AttendeeMismatch
               else if Trunc(now) > f.expires then Expired
               else if tokens[i].singleUse && tokens[i].usedAt.Some? then AlreadyUsed
               else Ok
  {
    ParseRaw(c, f);
    FoundByHash(tokens, i);
  }

  /** The row is of a single-use token that has been used. */
  predicate Marked(tokens: seq<Token>, row: Option<nat>) {
    row.Some? && row.value < |tokens| && tokens[row.value].singleUse && tokens[row.value].usedAt.Some?
  }

  lemma HashFound(tokens: seq<Token>, hash: string)
    ensures First(tokens, ByHash(hash)).None? <==> forall i :: 0 <= i < |tokens| ==> tokens[i].hash != hash
  {
    var same := ByHash(hash);
    assert forall i :: 0 <= i < |tokens| ==> (same(tokens[i]) <==> tokens[i].hash == hash);
  }

  lemma FragmentBinds(c: Crypto, f: Fields, attendee: Option<string>)
    ensures BoundTo(c, f.fragment, attendee)
            <==> (f.fragment.Some? ==> Given(attendee) && f.fragment.value == "a=" + c.attendeeHash(attendee.value))
  {
  }

  lemma ParsedVerdict(c: Crypto, tokens: seq<Token>, raw: string, f: Fields, signature: string,
                      eventId: int, table: string, attendee: Option<string>, now: real)
    requires raw != "" && Parse(raw) == Some(Parsed(f, signature))
    requires table == "events" || table == "greek_rush_events"
    ensures var hit := First(tokens, ByHash(c.sha256(raw)));
            Peek(c, tokens, raw, eventId, table, attendee, now).status
            == if table != f.table || eventId != f.eventId then EventMismatch
               else if signature != c.hmac(Payload(f)) then SignatureMismatch
               else if !BoundTo(c, f.fragment, attendee) then AttendeeMismatch
               else if Trunc(now) > f.expires then Expired
               else if hit.None? then NotFound
               else if Marked(tokens, hit) then AlreadyUsed
               else Ok
  {
  }

  /** The whole verdict on a string that spells a token, minted or not: its event, its signature, its
      attendee, its expiry, its row and that row's mark are judged in this order. */
  lemma SpelledVerdict(c: Crypto, tokens: seq<Token>, raw: string, f: Fields, signature: string,
                       eventId: int, table: string, attendee: Option<string>, now: real)
    requires SpelledAs(raw, f, signature) && (table == "events" || table == "greek_rush_events")
    ensures Peek(c, tokens, raw, eventId, table, attendee, now).status
            == if table != f.table || eventId != f.eventId then EventMismatch
               else if signature != c.hmac(Payload(f)) then SignatureMismatch
               else if f.fragment.Some?
                       && !(Given(attendee) && f.fragment.value == "a=" + c.attendeeHash(attendee.value))
               then AttendeeMismatch
               else if Trunc(now) > f.expires then Expired
               else if forall i :: 0 <= i < |tokens| ==> tokens[i].hash != c.sha256(raw) then NotFound
               else if Marked(tokens, First(tokens, ByHash(c.sha256(raw)))) then AlreadyUsed
               else Ok
  {
    ParseExact(raw, f, signature);
    NothingSpelled(f, signature);
    ParsedVerdict(c, tokens, raw, f, signature, eventId, table, attendee, now);
    FragmentBinds(c, f, attendee);
    HashFound(tokens, c.sha256(raw));
  }

  /** Every other string, and no string that spells a token, is malformed. */
  lemma MalformedIff(c: Crypto, tokens: seq<Token>, raw: string,
                     eventId: int, table: string, attendee: Option<string>, now: real)
    requires table == "events" || table == "greek_rush_events"
    ensures Peek(c, tokens, raw, eventId, table, attendee, now).status == InvalidFormat
            <==> forall f, signature :: !SpelledAs(raw, f, signature)
  {
    var p := Parse(raw);
    if p.Some? {
      ParseExact(raw, p.value.fields, p.value.signature);
      SpelledVerdict(c, tokens, raw, p.value.fields, p.value.signature, eventId, table, attendee, now);
    } else {
      forall f, signature ensures !SpelledAs(raw, f, signature) {
        ParseExact(raw, f, signature);
      }
    }
  }

  /** The person is somebody else than the one the token was minted for, as far as their hashes tell. */
  predicate SomebodyElse(c: Crypto, bound: Option<string>, attendee: Option<string>) {
    Given(bound) && !(Given(attendee) && c.attendeeHash(attendee.value) == c.attendeeHash(bound.value))
  }

  lemma SamePrefix(a: string, b: string)
    ensures "a=" + a == "a=" + b <==> a == b
  {
    assert ("a=" + a)[2..] == a && ("a=" + b)[2..] == b;
  }

  lemma FragmentTells(c: Crypto, rq: MintRequest, attendee: Option<string>)
    ensures var fragment := MintFields(c, rq).fragment;
            fragment.Some? && !(Given(attendee) && fragment.value == "a=" + c.attendeeHash(attendee.value))
            <==> SomebodyElse(c, rq.attendee, attendee)
  {
    if Given(rq.attendee) && Given(attendee) {
      SamePrefix(c.attendeeHash(rq.attendee.value), c.attendeeHash(attendee.value));
    }
  }

  lemma FreshRow(c: Crypto, tokens: seq<Token>, rq: MintRequest)
    requires Sound(c) && Genuine(c, tokens) && MintTx(c, tokens, rq).1.MintOk?
    ensures var (tokens', r) := MintTx(c, tokens, rq);
            && |tokens'| == |tokens| + 1 && UniqueHashes(tokens') && RowOf(c, tokens'[|tokens|], MintFields(c, rq))
            && tokens'[|tokens|].usedAt.None? && r.raw == Raw(c, MintFields(c, rq))
  {
    MintKeepsGenuine(c, tokens, rq);
    MintedRow(c, rq);
  }

  /** The string just minted is accepted for its event until its expiry second, the given minutes after
      the call, and refused from the next second on; and by nobody but the attendee it is bound to. */
  lemma FreshTokenVerdict(c: Crypto, tokens: seq<Token>, rq: MintRequest, attendee: Option<string>, t: real)
    requires Sound(c) && Genuine(c, tokens) && MintTx(c, tokens, rq).1.MintOk?
    ensures Peek(c, MintTx(c, tokens, rq).0, MintTx(c, tokens, rq).1.raw, rq.eventId, rq.table, attendee, t).status
            == if SomebodyElse(c, rq.attendee, attendee) then AttendeeMismatch
               else if Trunc(t) > Trunc(rq.now + (60 * rq.ttlMinutes) as real) then Expired
               else Ok
  {
    FreshRow(c, tokens, rq);
    FragmentTells(c, rq, attendee);
    MintedVerdict(c, MintTx(c, tokens, rq).0, MintFields(c, rq), rq.eventId, rq.table, attendee, t, |tokens|);
  }

  /** No minted string is spelled in another way, whatever its fields. */
  lemma RespelledNotMinted(c: Crypto, f: Fields, idText: string, expText: string, g: Fields)
    requires Sound(c) && Mintable(f) && Mintable(g)
    requires ColonFree(idText) && ParseInt(idText) == Some(f.eventId)
    requires ColonFree(expText) && ParseInt(expText) == Some(f.expires)
    requires idText != Print(f.eventId) || expText != Print(f.expires)
    ensures Raw(c, g) != Spelled(f, idText, expText, c.hmac(Payload(f)))
  {
    var signature := c.hmac(Payload(f));
    if Raw(c, g) == Spelled(f, idText, expText, signature) {
      ParseSpelled(f, idText, expText, signature);
      ParseRaw(c, g);
      RawIsSpelled(c, f);
      SplitSpelled(f, idText, expText, signature);
      SplitSpelled(f, Print(f.eventId), Print(f.expires), signature);
    }
  }

  /** A non-canonical spelling of a live token rebuilds the signed payload and passes every check up to
      the lookup, but no minted string is spelled that way, so the lookup refuses it. */
  lemma RespelledIsRefused(c: Crypto, tokens: seq<Token>, f: Fields, idText: string, expText: string,
                           attendee: Option<string>, now: real)
    requires Sound(c) && Genuine(c, tokens) && Mintable(f)
    requires ColonFree(idText) && ParseInt(idText) == Some(f.eventId)
    requires ColonFree(expText) && ParseInt(expText) == Some(f.expires)
    requires idText != Print(f.eventId) || expText != Print(f.expires)
    requires BoundTo(c, f.fragment, attendee) && Trunc(now) <= f.expires
    ensures Peek(c, tokens, Spelled(f, idText, expText, c.hmac(Payload(f))), f.eventId, f.table, attendee, now)
            == VerifyResult(NotFound, None)
  {
    var raw := Spelled(f, idText, expText, c.hmac(Payload(f)));
    ParseSpelled(f, idText, expText, c.hmac(Payload(f)));
    forall i | 0 <= i < |tokens| ensures !ByHash(c.sha256(raw))(tokens[i]) {
      assert Minted(c, tokens[i]);
      var g :| RowOf(c, tokens[i], g);
      RespelledNotMinted(c, f, idText, expText, g);
    }
    assert raw != "";
  }
}

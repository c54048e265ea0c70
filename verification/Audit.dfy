/** internal/store/rules.go: the audit messages of applied traffic, and what summing them up recovers. */
module Audit {
  import opened Collections
  import opened Model
  import opened Text

  // Messages --------------------------------------------------------------

  predicate NoSpace(s: string) {
    forall i :: 0 <= i < |s| ==> !IsSpace(s[i])
  }

  /** strings.Fields. */
  function Fields(s: string): (fields: seq<string>)
    ensures s != [] && !IsSpace(s[0]) ==> fields != []
  {
    if s == [] then []
    else if IsSpace(s[0]) then Fields(s[1..])
    else if |s| == 1 || IsSpace(s[1]) then [[s[0]]] + Fields(s[1..])
    else
      var rest := Fields(s[1..]);
      [[s[0]] + rest[0]] + rest[1..]
  }

  /** The words separated by single blanks. */
  function Spaced(words: seq<string>): string {
    if words == [] then "" else if |words| == 1 then words[0] else words[0] + " " + Spaced(words[1..])
  }

  function NonEmpty(words: seq<string>): seq<string> {
    if words == [] then [] else (if words[0] == "" then [] else [words[0]]) + NonEmpty(words[1..])
  }

  function FormatInt(n: int): string {
    if n < 0 then "-" + Decimal(-n) else Decimal(n)
  }

  function Head(t: int, inbound: int): seq<string> {
    ["traffic", "id", FormatInt(t), "inbound", FormatInt(inbound), "email"]
  }

  function Keyed(key: string, value: string): string {
    key + ['='] + value
  }

  const UP := "extra_up"
  const DOWN := "extra_down"

  /** The message of a traffic_apply event, as the tick prints it. */
  function Message(t: int, inbound: int, email: string, up: nat, down: nat): string {
    Spaced(Head(t, inbound) + [email] + [Keyed(UP, Decimal(up)), Keyed(DOWN, Decimal(down))])
  }

  lemma {:induction false} WordFirst(w: string, rest: string)
    requires NoSpace(w) && w != [] && (rest == [] || IsSpace(rest[0]))
    ensures Fields(w + rest) == [w] + Fields(rest)
  {
    var s := w + rest;
    if |w| == 1 {
      assert s[1..] == rest && [s[0]] == w;
    } else {
      assert s[1..] == w[1..] + rest;
      WordFirst(w[1..], rest);
      assert [w[0]] + w[1..] == w;
      assert ([w[1..]] + Fields(rest))[1..] == Fields(rest);
    }
  }

  lemma FieldsOne(words: seq<string>)
    requires |words| == 1 && NoSpace(words[0])
    ensures Fields(Spaced(words)) == NonEmpty(words)
  {
    var w := words[0];
    assert words[1..] == [];
    if w != [] {
      assert w + [] == w;
      WordFirst(w, []);
    }
  }

  lemma FieldsMore(words: seq<string>)
    requires |words| > 1 && NoSpace(words[0]) && Fields(Spaced(words[1..])) == NonEmpty(words[1..])
    ensures Fields(Spaced(words)) == NonEmpty(words)
  {
    var w, rest := words[0], " " + Spaced(words[1..]);
    assert rest[1..] == Spaced(words[1..]);
    assert Spaced(words) == w + rest;
    if w == [] { assert w + rest == rest; } else { WordFirst(w, rest); }
  }

  lemma {:induction false} FieldsSpaced(words: seq<string>)
    requires forall w :: w in words ==> NoSpace(w)
    ensures Fields(Spaced(words)) == NonEmpty(words)
  {
    if words != [] {
      assert words[0] in words && forall w :: w in words[1..] ==> w in words;
      if |words| == 1 {
        FieldsOne(words);
      } else {
        FieldsSpaced(words[1..]);
        FieldsMore(words);
      }
    }
  }

  // Reading a message back ------------------------------------------------

  predicate Punctuation(c: char) {
    c == ' ' || c == ',' || c == '.' || c == ';' || c == ':'
  }

  /** strings.Trim with the punctuation of messages. */
  function Trimmed(s: string): (t: string)
    ensures forall c :: c in t ==> c in s
    ensures s != [] && !Punctuation(s[0]) && !Punctuation(s[|s| - 1]) ==> t == s
  {
    if s == [] then s
    else if Punctuation(s[0]) then Trimmed(s[1..])
    else if Punctuation(s[|s| - 1]) then Trimmed(s[..|s| - 1])
    else s
  }

  /** strings.Cut at the first '='. */
  function Cut(s: string): (r: Option<(string, string)>)
    ensures r.None? <==> '=' !in s
  {
    if s == [] then None
    else if s[0] == '=' then Some(("", s[1..]))
    else
      match Cut(s[1..])
      case None => None
      case Some((key, value)) => Some(([s[0]] + key, value))
  }

  lemma {:induction false} CutKey(key: string, value: string)
    requires '=' !in key
    ensures Cut(Keyed(key, value)) == Some((key, value))
  {
    var s := Keyed(key, value);
    if key == [] {
      assert s[1..] == value;
    } else {
      assert s[1..] == Keyed(key[1..], value);
      CutKey(key[1..], value);
      assert [key[0]] + key[1..] == key;
    }
  }

  /** strconv.ParseInt(s, 10, 64). */
  function ParseInt(s: string): Result<int64> {
    if s == [] then Err(BadInput)
    else
      var digits := if s[0] == '-' || s[0] == '+' then s[1..] else s;
      if digits == [] || !AllDigits(digits) then Err(BadInput)
      else
        var n: int := if s[0] == '-' then -(Val(digits) as int) else Val(digits);
        if MIN_INT64 <= n <= MAX_INT64 then Ok(n) else Err(Overflow)
  }

  datatype Token = Other | Malformed | Amount(bytes: int64)

  function TokenOf(field: string): Token {
    match Cut(Trimmed(field))
    case None => Other
    case Some((key, value)) =>
      if key != UP && key != DOWN then Other
      else
        match ParseInt(value)
        case Err(_) => Malformed
        case Ok(n) => if n < 0 then Malformed else Amount(n)
  }

  function SaturatingAdd(a: int64, b: int64): int64 {
    if b > 0 && a > MAX_INT64 - b then MAX_INT64
    else if a + b < MIN_INT64 then a + b + 0x1_0000_0000_0000_0000
    else a + b
  }

  function ExtraFrom(fields: seq<string>, total: int64, found: bool): Option<int64>
    decreases |fields|
  {
    if fields == [] then if found then Some(total) else None
    else
      match TokenOf(fields[0])
      case Other => ExtraFrom(fields[1..], total, found)
      case Malformed => None
      case Amount(n) => ExtraFrom(fields[1..], SaturatingAdd(total, n), true)
  }

  /** eventExtraBytes: None when a field is malformed or none is found. */
  function ExtraBytes(message: string): Option<int64> {
    ExtraFrom(Fields(message), 0, false)
  }

  function Capped(n: nat): int64 {
    if n > MAX_INT64 then MAX_INT64 else n
  }

  // A message says what was applied ----------------------------------------

  lemma DigitsPlain(s: string)
    requires AllDigits(s)
    ensures NoSpace(s) && '=' !in s
  {
  }

  lemma FormattedPlain(n: int)
    ensures NoSpace(FormatInt(n)) && '=' !in FormatInt(n) && FormatInt(n) != ""
  {
    var s := FormatInt(n);
    if n < 0 {
      DigitsPlain(Decimal(-n));
      assert s == ['-'] + Decimal(-n);
    } else {
      DigitsPlain(Decimal(n));
    }
  }

  lemma PlainIsOther(field: string)
    requires '=' !in field
    ensures TokenOf(field) == Other
  {
  }

  lemma KeyedStands(key: string, digits: string)
    requires key != "" && !Punctuation(key[0]) && '=' !in key && digits != "" && AllDigits(digits)
    ensures Cut(Trimmed(Keyed(key, digits))) == Some((key, digits))
    ensures NoSpace(key) ==> NoSpace(Keyed(key, digits))
  {
    var field := Keyed(key, digits);
    assert field[0] == key[0] && field[|field| - 1] == digits[|digits| - 1];
    CutKey(key, digits);
  }

  lemma DecimalParses(n: nat)
    ensures n <= MAX_INT64 ==> ParseInt(Decimal(n)) == Ok(n)
  {
    var digits := Decimal(n);
    assert IsDigit(digits[0]);
  }

  predicate ExtraKey(key: string) {
    (key == UP || key == DOWN)
  }

  lemma ExtraKeys(key: string)
    requires ExtraKey(key)
    ensures key != "" && !Punctuation(key[0]) && '=' !in key && NoSpace(key)
  {
  }

  lemma AmountField(key: string, n: nat)
    requires ExtraKey(key)
    ensures NoSpace(Keyed(key, Decimal(n))) && Keyed(key, Decimal(n)) != ""
    ensures n <= MAX_INT64 ==> TokenOf(Keyed(key, Decimal(n))) == Amount(n)
  {
    ExtraKeys(key);
    KeyedStands(key, Decimal(n));
    DecimalParses(n);
  }

  lemma LiteralPlain(w: string)
    requires w == "traffic" || w == "id" || w == "inbound" || w == "email"
    ensures NoSpace(w) && '=' !in w && w != ""
  {
  }

  lemma HeadPlain(t: int, inbound: int)
    ensures forall w :: w in Head(t, inbound) ==> NoSpace(w) && '=' !in w && w != ""
  {
    var head := Head(t, inbound);
    forall w | w in head ensures NoSpace(w) && '=' !in w && w != "" {
      if w == FormatInt(t) { FormattedPlain(t); } else if w == FormatInt(inbound) { FormattedPlain(inbound); } else {
        LiteralPlain(w);
      }
    }
  }

  lemma OthersSkipped(head: seq<string>, tail: seq<string>, total: int64, found: bool)
    requires forall f :: f in head ==> TokenOf(f) == Other
    ensures ExtraFrom(head + tail, total, found) == ExtraFrom(tail, total, found)
    decreases |head|
  {
    if head == [] {
      assert head + tail == tail;
    } else {
      assert head[0] in head && (head + tail)[1..] == head[1..] + tail;
      OthersSkipped(head[1..], tail, total, found);
    }
  }

  lemma MessageFields(t: int, inbound: int, email: string, up: nat, down: nat)
    requires NoSpace(email)
    ensures Fields(Message(t, inbound, email, up, down))
            == Head(t, inbound) + (NonEmpty([email]) + [Keyed(UP, Decimal(up)), Keyed(DOWN, Decimal(down))])
  {
    HeadPlain(t, inbound);
    AmountField(UP, up);
    AmountField(DOWN, down);
    FieldsAround(Head(t, inbound), email, Keyed(UP, Decimal(up)), Keyed(DOWN, Decimal(down)));
  }

  lemma FieldsAround(head: seq<string>, email: string, a: string, b: string)
    requires (forall w :: w in head ==> NoSpace(w) && w != "") && NoSpace(email) && NoSpace(a) && NoSpace(b)
             && a != "" && b != ""
    ensures Fields(Spaced(head + [email] + [a, b])) == head + (NonEmpty([email]) + [a, b])
  {
    FieldsSpaced(head + [email] + [a, b]);
    assert head + [email] + [a, b] == head + ([email] + [a, b]);
    NonEmptySplit(head, [email] + [a, b]);
    NonEmptySplit([email], [a, b]);
    AllNonEmpty(head);
    AllNonEmpty([a, b]);
  }

  lemma {:induction false} AllNonEmpty(words: seq<string>)
    requires forall w :: w in words ==> w != ""
    ensures NonEmpty(words) == words
  {
    if words != [] {
      assert words[0] in words && forall w :: w in words[1..] ==> w in words;
      AllNonEmpty(words[1..]);
    }
  }

  lemma {:induction false} NonEmptySplit(xs: seq<string>, ys: seq<string>)
    ensures NonEmpty(xs + ys) == NonEmpty(xs) + NonEmpty(ys)
  {
    if xs == [] {
      assert xs + ys == ys;
    } else {
      assert (xs + ys)[1..] == xs[1..] + ys;
      NonEmptySplit(xs[1..], ys);
    }
  }

  /** What a message of `sum` extra bytes reads as, given what its email reads as. */
  function Recovered(email: Token, sum: nat): Option<int64> {
    match email
    case Other => Some(Capped(sum))
    case Amount(n) => if n < 0 then None else Some(Capped(n + sum))
    case Malformed => None
  }

  /**
   * Reading a message back gives the bytes it was printed for, capped; an email that looks like an extra field itself
   * adds to them or spoils them.
   */
  lemma MessageReadsBack(t: int, inbound: int, email: string, up: nat, down: nat)
    requires NoSpace(email) && up <= MAX_INT64 && down <= MAX_INT64
    ensures ExtraBytes(Message(t, inbound, email, up, down)) == Recovered(TokenOf(email), up + down)
  {
    var head, a, b := Head(t, inbound), Keyed(UP, Decimal(up)), Keyed(DOWN, Decimal(down));
    MessageFields(t, inbound, email, up, down);
    HeadPlain(t, inbound);
    forall f | f in head ensures TokenOf(f) == Other { PlainIsOther(f); }
    OthersSkipped(head, NonEmpty([email]) + [a, b], 0, false);
    AmountField(UP, up);
    AmountField(DOWN, down);
    EmailThenAmounts(email, a, b, up, down);
  }

  lemma TwoAmounts(a: string, b: string, up: nat, down: nat, total: int64, found: bool)
    requires up <= MAX_INT64 && down <= MAX_INT64 && total >= 0 && TokenOf(a) == Amount(up)
             && TokenOf(b) == Amount(down)
    ensures ExtraFrom([a, b], total, found) == Some(Capped(total + up + down))
  {
    assert [a, b][1..] == [b] && [b][1..] == [];
    var more := SaturatingAdd(total, up);
    assert ExtraFrom([a, b], total, found) == ExtraFrom([b], more, true);
    assert ExtraFrom([b], more, true) == ExtraFrom([], SaturatingAdd(more, down), true);
  }

  lemma FirstToken(field: string, tail: seq<string>, total: int64, found: bool)
    ensures ExtraFrom([field] + tail, total, found)
            == match TokenOf(field)
               case Other => ExtraFrom(tail, total, found)
               case Malformed => None
               case Amount(n) => ExtraFrom(tail, SaturatingAdd(total, n), true)
  {
    assert ([field] + tail)[1..] == tail;
  }

  lemma TokenIsNonNegative(field: string)
    ensures TokenOf(field).Amount? ==> TokenOf(field).bytes >= 0
  {
  }

  /** What the first token and the amounts after it add up to. */
  lemma TokenThenSum(email: string, token: Token, tail: seq<string>, sum: nat)
    requires TokenOf(email) == token && ExtraFrom(tail, 0, false) == Some(Capped(sum))
    requires token.Amount? ==> token.bytes >= 0 && ExtraFrom(tail, token.bytes, true) == Some(Capped(token.bytes + sum))
    ensures ExtraFrom([email] + tail, 0, false) == Recovered(token, sum)
  {
    FirstToken(email, tail, 0, false);
  }

  lemma SumAfter(token: Token, a: string, b: string, up: nat, down: nat)
    requires up <= MAX_INT64 && down <= MAX_INT64 && TokenOf(a) == Amount(up) && TokenOf(b) == Amount(down)
    requires token.Amount? ==> token.bytes >= 0
    ensures ExtraFrom([a, b], 0, false) == Some(Capped(up + down))
    ensures token.Amount? ==> ExtraFrom([a, b], token.bytes, true) == Some(Capped(token.bytes + (up + down)))
  {
    TwoAmounts(a, b, up, down, 0, false);
    if token.Amount? { TwoAmounts(a, b, up, down, token.bytes, true); }
  }

  lemma SomeEmailThen(email: string, token: Token, a: string, b: string, up: nat, down: nat)
    requires TokenOf(email) == token && up <= MAX_INT64 && down <= MAX_INT64
    requires TokenOf(a) == Amount(up) && TokenOf(b) == Amount(down) && (token.Amount? ==> token.bytes >= 0)
    ensures ExtraFrom([email] + [a, b], 0, false) == Recovered(token, up + down)
  {
    SumAfter(token, a, b, up, down);
    TokenThenSum(email, token, [a, b], up + down);
  }

  lemma NoEmailThen(a: string, b: string, up: nat, down: nat)
    requires up <= MAX_INT64 && down <= MAX_INT64 && TokenOf(a) == Amount(up) && TokenOf(b) == Amount(down)
    ensures ExtraFrom([a, b], 0, false) == Recovered(TokenOf(""), up + down)
  {
    PlainIsOther("");
    TwoAmounts(a, b, up, down, 0, false);
  }

  lemma EmailThenAmounts(email: string, a: string, b: string, up: nat, down: nat)
    requires up <= MAX_INT64 && down <= MAX_INT64 && TokenOf(a) == Amount(up) && TokenOf(b) == Amount(down)
    ensures ExtraFrom(NonEmpty([email]) + [a, b], 0, false) == Recovered(TokenOf(email), up + down)
  {
    if email == "" {
      assert NonEmpty([email]) + [a, b] == [a, b];
      NoEmailThen(a, b, up, down);
    } else {
      AllNonEmpty([email]);
      TokenIsNonNegative(email);
      SomeEmailThen(email, TokenOf(email), a, b, up, down);
    }
  }
}

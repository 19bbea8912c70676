/**
 JSON texts as printed from value trees with arbitrary whitespace (sections 2 to 7 of RFC 8259), and the
 positions a scanner without a tree moves through. `None` stands for every way to refuse a text.
 */
module JsonText {
  import opened RouterTypes

  // ---------------------------------------------------------------- characters and tokens

  predicate IsWs(c: char) {
    c == ' ' || c == '\t' || c == '\r' || c == '\n'
  }

  predicate AllWs(s: string) {
    forall k :: 0 <= k < |s| ==> IsWs(s[k])
  }

  predicate IsDigit(c: char) {
    '0' <= c <= '9'
  }

  /** `t` stands in `s` at position `i`. */
  predicate At(s: string, i: nat, t: string) {
    i + |t| <= |s| && s[i..i + |t|] == t
  }

  lemma AtSplit(s: string, i: nat, a: string, b: string)
    ensures At(s, i, a + b) <==> At(s, i, a) && At(s, i + |a|, b)
  {
    if At(s, i, a + b) {
      assert s[i..i + |a|] == (a + b)[..|a|];
      assert s[i + |a|..i + |a| + |b|] == (a + b)[|a|..];
    }
    if At(s, i, a) && At(s, i + |a|, b) {
      assert s[i..i + |a + b|] == s[i..i + |a|] + s[i + |a|..i + |a| + |b|];
    }
  }

  lemma AtFirst(s: string, i: nat, t: string)
    requires At(s, i, t) && t != ""
    ensures i < |s| && s[i] == t[0] && At(s, i + 1, t[1..])
  {
  }

  function WsEnd(s: string, i: nat): (j: nat)
    requires i <= |s|
    ensures i <= j <= |s| && (j < |s| ==> !IsWs(s[j]))
    decreases |s| - i
  {
    if i < |s| && IsWs(s[i]) then WsEnd(s, i + 1) else i
  }

  /** Only the four whitespace characters of section 2 of RFC 8259 are passed over, and all of them. */
  lemma {:induction false} WsIsSkipped(s: string, i: nat)
    requires i <= |s|
    ensures forall k :: i <= k < WsEnd(s, i) ==> s[k] in {' ', '\t', '\r', '\n'}
    ensures WsEnd(s, i) < |s| ==> s[WsEnd(s, i)] !in {' ', '\t', '\r', '\n'}
    decreases |s| - i
  {
    if i < |s| && IsWs(s[i]) { WsIsSkipped(s, i + 1); }
  }

  /** Where the rest of a string literal ends, from inside it. A backslash skips the next character. */
  function RawEnd(s: string, i: nat): (r: Option<nat>)
    ensures r.Some? ==> i < r.value <= |s|
    decreases |s| - i
  {
    if i >= |s| then None
    else if s[i] == '"' then Some(i + 1)
    else if s[i] == '\\' then RawEnd(s, i + 2)
    else if s[i] < ' ' then None
    else RawEnd(s, i + 1)
  }

  function StringEnd(s: string, i: nat): (r: Option<nat>)
    ensures r.Some? ==> i + 1 < r.value <= |s|
  {
    if i >= |s| || s[i] != '"' then None else RawEnd(s, i + 1)
  }

  function DigitsEnd(s: string, i: nat): (j: nat)
    requires i <= |s|
    ensures i <= j <= |s|
    decreases |s| - i
  {
    if i < |s| && IsDigit(s[i]) then DigitsEnd(s, i + 1) else i
  }

  /** Where the integer part of a number ends; equal to `i` when there is none. */
  function IntEnd(s: string, i: nat): (j: nat)
    requires i <= |s|
    ensures i <= j <= |s|
  {
    var k := if i < |s| && s[i] == '-' then i + 1 else i;
    if k >= |s| || !IsDigit(s[k]) then i
    else if s[k] == '0' then k + 1
    else DigitsEnd(s, k)
  }

  function FractionEnd(s: string, i: nat): (j: nat)
    requires i <= |s|
    ensures i <= j <= |s|
  {
    if i + 1 < |s| && s[i] == '.' && IsDigit(s[i + 1]) then DigitsEnd(s, i + 1) else i
  }

  function ExponentEnd(s: string, i: nat): (j: nat)
    requires i <= |s|
    ensures i <= j <= |s|
  {
    if i + 1 < |s| && (s[i] == 'e' || s[i] == 'E') then
      var k := if s[i + 1] == '+' || s[i + 1] == '-' then i + 2 else i + 1;
      if k < |s| && IsDigit(s[k]) then DigitsEnd(s, k) else i
    else i
  }

  /** The library decoder's number: the longest match of the grammar, or one of its three constants. */
  function NumberLength(s: string): (r: Option<nat>)
    ensures r.Some? ==> 0 < r.value <= |s|
  {
    if IntEnd(s, 0) > 0 then Some(ExponentEnd(s, FractionEnd(s, IntEnd(s, 0))))
    else if At(s, 0, "NaN") then Some(3)
    else if At(s, 0, "Infinity") then Some(8)
    else if At(s, 0, "-Infinity") then Some(9)
    else None
  }

  const WINDOW: nat := 128

  /** Numbers are decoded through a window of 128 characters. */
  function NumberEnd(s: string, i: nat): (r: Option<nat>)
    requires i <= |s|
    ensures r.Some? ==> i < r.value <= |s|
  {
    var window := s[i..if i + WINDOW < |s| then i + WINDOW else |s|];
    if NumberLength(window).Some? then Some(i + NumberLength(window).value) else None
  }

  // ---------------------------------------------------------------- values

  function ValueEnd(s: string, i: nat): (r: Option<nat>)
    requires i <= |s|
    ensures r.Some? ==> i < r.value <= |s|
    decreases |s| - i, 2
  {
    var k := WsEnd(s, i);
    if k >= |s| then None
    else if s[k] == '"' then StringEnd(s, k)
    else if s[k] == '{' then ObjectEnd(s, k)
    else if s[k] == '[' then ArrayEnd(s, k)
    else if At(s, k, "true") then Some(k + 4)
    else if At(s, k, "false") then Some(k + 5)
    else if At(s, k, "null") then Some(k + 4)
    else NumberEnd(s, k)
  }

  function ObjectEnd(s: string, i: nat): (r: Option<nat>)
    requires i < |s|
    ensures r.Some? ==> i < r.value <= |s|
    decreases |s| - i, 1
  {
    var k := WsEnd(s, i + 1);
    if k < |s| && s[k] == '}' then Some(k + 1) else MembersEnd(s, k)
  }

  function MembersEnd(s: string, i: nat): (r: Option<nat>)
    requires i <= |s|
    ensures r.Some? ==> i < r.value <= |s|
    decreases |s| - i, 3
  {
    MembersFrom(s, WsEnd(s, i))
  }

  /** From the first key on. */
  function MembersFrom(s: string, i: nat): (r: Option<nat>)
    requires i <= |s|
    ensures r.Some? ==> i < r.value <= |s|
    decreases |s| - i, 2
  {
    var key := StringEnd(s, i);
    if key.None? then None
    else
      var k := WsEnd(s, key.value);
      if k >= |s| || s[k] != ':' then None
      else
        var value := ValueEnd(s, k + 1);
        if value.None? then None
        else
          var j := WsEnd(s, value.value);
          if j >= |s| then None
          else if s[j] == '}' then Some(j + 1)
          else if s[j] != ',' then None
          else MembersEnd(s, j + 1)
  }

  function ArrayEnd(s: string, i: nat): (r: Option<nat>)
    requires i < |s|
    ensures r.Some? ==> i < r.value <= |s|
    decreases |s| - i, 1
  {
    var k := WsEnd(s, i + 1);
    if k < |s| && s[k] == ']' then Some(k + 1) else ItemsEnd(s, k)
  }

  function ItemsEnd(s: string, i: nat): (r: Option<nat>)
    requires i <= |s|
    ensures r.Some? ==> i < r.value <= |s|
    decreases |s| - i, 3
  {
    var value := ValueEnd(s, i);
    if value.None? then None
    else
      var j := WsEnd(s, value.value);
      if j >= |s| then None
      else if s[j] == ']' then Some(j + 1)
      else if s[j] != ',' then None
      else ItemsEnd(s, j + 1)
  }

  // ---------------------------------------------------------------- trees and how they are printed

  /** A value with the whitespace inside it. Strings are kept as written, between their quotes. */
  datatype Value =
    | True
    | False
    | Null
    | Number(text: string)
    | Text(raw: string)
    | Array(inner: string, items: Items)
    | Object(inner: string, members: Members)

  /** `lead` and `trail` are the whitespace before and after the value. */
  datatype Items = NoItems | Item(lead: string, value: Value, trail: string, rest: Items)

  datatype Members =
    | NoMembers
    | Member(before: string, key: string, mid: string, lead: string, value: Value, trail: string, rest: Members)

  function Quoted(raw: string): string {
    "\"" + raw + "\""
  }

  function Print(v: Value): string {
    match v
    case True => "true"
    case False => "false"
    case Null => "null"
    case Number(text) => text
    case Text(raw) => Quoted(raw)
    case Array(inner, items) => "[" + if items.NoItems? then inner + "]" else PrintItems(items)
    case Object(inner, members) => "{" + if members.NoMembers? then inner + "}" else PrintMembers(members)
  }

  /** The items with the separators between them and the closing bracket. */
  function PrintItems(items: Items): string
    requires items.Item?
    decreases items, 0
  {
    items.lead + (Print(items.value) + (items.trail + AfterItem(items.rest)))
  }

  function AfterItem(rest: Items): string
    decreases rest, 1
  {
    if rest.NoItems? then "]" else "," + PrintItems(rest)
  }

  function PrintMembers(members: Members): string
    requires members.Member?
    decreases members, 1
  {
    members.before + (Quoted(members.key) + (members.mid + (":" + PrintMemberValue(members))))
  }

  function PrintMemberValue(members: Members): string
    requires members.Member?
    decreases members, 0
  {
    members.lead + (Print(members.value) + (members.trail + AfterMember(members.rest)))
  }

  function AfterMember(rest: Members): string
    decreases rest, 2
  {
    if rest.NoMembers? then "}" else "," + PrintMembers(rest)
  }

  /** What may stand between the quotes: no bare quote or control character, and no lone final backslash. */
  predicate GoodRaw(raw: string) {
    raw == "" ||
    (if raw[0] == '\\' then |raw| > 1 && GoodRaw(raw[2..]) else raw[0] != '"' && raw[0] >= ' ' && GoodRaw(raw[1..]))
  }

  predicate GoodNumber(text: string) {
    IntEnd(text, 0) > 0 && NumberLength(text) == Some(|text|)
  }

  predicate Good(v: Value) {
    match v
    case Number(text) => GoodNumber(text)
    case Text(raw) => GoodRaw(raw)
    case Array(inner, items) => AllWs(inner) && GoodItems(items)
    case Object(inner, members) => AllWs(inner) && GoodMembers(members)
    case _ => true
  }

  predicate GoodItems(items: Items) {
    items.NoItems? || (AllWs(items.lead) && Good(items.value) && AllWs(items.trail) && GoodItems(items.rest))
  }

  predicate GoodMembers(members: Members) {
    members.NoMembers? ||
    (&& AllWs(members.before) && GoodRaw(members.key) && AllWs(members.mid) && AllWs(members.lead)
     && Good(members.value) && AllWs(members.trail) && GoodMembers(members.rest))
  }

  /** Every number in it fits the decoding window. */
  predicate Fits(v: Value) {
    match v
    case Number(text) => |text| <= WINDOW
    case Array(_, items) => FitsItems(items)
    case Object(_, members) => FitsMembers(members)
    case _ => true
  }

  predicate FitsItems(items: Items) {
    items.NoItems? || (Fits(items.value) && FitsItems(items.rest))
  }

  predicate FitsMembers(members: Members) {
    members.NoMembers? || (Fits(members.value) && FitsMembers(members.rest))
  }

  // ---------------------------------------------------------------- skipping lands past each token

  lemma {:induction false} WsLands(s: string, i: nat, w: string)
    requires At(s, i, w) && AllWs(w) && (i + |w| < |s| ==> !IsWs(s[i + |w|]))
    ensures WsEnd(s, i) == i + |w|
    decreases |w|
  {
    if w != "" {
      AtFirst(s, i, w);
      WsLands(s, i + 1, w[1..]);
    }
  }

  lemma {:induction false} RawLands(s: string, i: nat, raw: string)
    requires At(s, i, raw + "\"") && GoodRaw(raw)
    ensures RawEnd(s, i) == Some(i + |raw| + 1)
    decreases |raw|
  {
    AtFirst(s, i, raw + "\"");
    if raw != "" {
      assert (raw + "\"")[1..] == raw[1..] + "\"";
      if raw[0] == '\\' {
        AtFirst(s, i + 1, raw[1..] + "\"");
        assert (raw[1..] + "\"")[1..] == raw[2..] + "\"";
        RawLands(s, i + 2, raw[2..]);
      } else {
        RawLands(s, i + 1, raw[1..]);
      }
    }
  }

  lemma StringLands(s: string, i: nat, raw: string)
    requires At(s, i, Quoted(raw)) && GoodRaw(raw)
    ensures StringEnd(s, i) == Some(i + |Quoted(raw)|) && i < |s| && s[i] == '"'
  {
    assert Quoted(raw)[1..] == raw + "\"";
    AtFirst(s, i, Quoted(raw));
    RawLands(s, i + 1, raw);
  }

  /** The text after a value: nothing, whitespace, or the punctuation that ends or separates values. */
  predicate Ends(s: string, j: nat) {
    j >= |s| || IsWs(s[j]) || s[j] == ',' || s[j] == ']' || s[j] == '}'
  }

  /** Refused, or left standing where no value can end. */
  predicate Stuck(s: string, r: Option<nat>) {
    r.None? || !Ends(s, r.value)
  }

  // ---------------------------------------------------------------- numbers

  /** A character that cannot continue a number. */
  predicate CannotContinue(rest: string) {
    rest == "" || (!IsDigit(rest[0]) && rest[0] !in {'.', 'e', 'E', '+', '-'})
  }

  lemma {:induction false} DigitsExtend(text: string, rest: string, i: nat)
    requires i <= |text| && CannotContinue(rest)
    ensures DigitsEnd(text + rest, i) == DigitsEnd(text, i)
    decreases |text| - i
  {
    if i < |text| && IsDigit(text[i]) {
      DigitsExtend(text, rest, i + 1);
    }
  }

  /** A whole number text is still the longest match when something else follows. */
  lemma NumberExtends(text: string, rest: string)
    requires IntEnd(text, 0) > 0 && CannotContinue(rest)
    ensures NumberLength(text + rest) == NumberLength(text)
  {
    forall i | 0 <= i <= |text| ensures DigitsEnd(text + rest, i) == DigitsEnd(text, i) {
      DigitsExtend(text, rest, i);
    }
    assert IntEnd(text + rest, 0) == IntEnd(text, 0);
    var i := IntEnd(text, 0);
    assert FractionEnd(text + rest, i) == FractionEnd(text, i);
    var f := FractionEnd(text, i);
    assert ExponentEnd(text + rest, f) == ExponentEnd(text, f);
  }

  lemma {:induction false} DigitsOnly(s: string, i: nat)
    requires i <= |s|
    ensures forall k :: i <= k < DigitsEnd(s, i) ==> IsDigit(s[k])
    decreases |s| - i
  {
    if i < |s| && IsDigit(s[i]) { DigitsOnly(s, i + 1); }
  }

  predicate Digits(s: string) {
    s != "" && forall k :: 0 <= k < |s| ==> IsDigit(s[k])
  }

  predicate WholePart(s: string) {
    s == "0" || (Digits(s) && s[0] != '0')
  }

  predicate FractionPart(s: string) {
    s == "" || (s[0] == '.' && Digits(s[1..]))
  }

  predicate ExponentPart(s: string) {
    s == "" ||
    (s[0] in {'e', 'E'} && |s| > 1 && (Digits(s[1..]) || (s[1] in {'+', '-'} && Digits(s[2..]))))
  }

  /** The parts of a number in the grammar of section 6 of RFC 8259; absent ones are empty. */
  datatype Numeral = Numeral(minus: bool, whole: string, fraction: string, exponent: string) {
    predicate Valid() {
      WholePart(whole) && FractionPart(fraction) && ExponentPart(exponent)
    }

    function Head(): string {
      (if minus then "-" else "") + whole
    }

    function Text(): string {
      Head() + fraction + exponent
    }
  }

  lemma {:induction false} DigitsSpan(s: string, i: nat, j: nat)
    requires i <= j <= |s| && (forall k :: i <= k < j ==> IsDigit(s[k])) && (j < |s| ==> !IsDigit(s[j]))
    ensures DigitsEnd(s, i) == j
    decreases j - i
  {
    if i < j { DigitsSpan(s, i + 1, j); }
  }

  lemma HeadEnds(n: Numeral)
    requires n.Valid()
    ensures IntEnd(n.Text(), 0) == |n.Head()| > 0
  {
    var s, k := n.Text(), if n.minus then 1 else 0;
    assert forall j :: 0 <= j < |n.whole| ==> s[k + j] == n.whole[j];
    assert |n.Head()| < |s| ==> s[|n.Head()|] == (n.fraction + n.exponent)[0];
    if n.whole != "0" { DigitsSpan(s, k, |n.Head()|); }
  }

  lemma FractionEnds(n: Numeral)
    requires n.Valid()
    ensures FractionEnd(n.Text(), |n.Head()|) == |n.Head() + n.fraction|
  {
    var s, a := n.Text(), |n.Head()|;
    var f := a + |n.fraction|;
    assert forall j :: 0 <= j < |n.fraction| ==> s[a + j] == n.fraction[j];
    assert f < |s| ==> s[f] == n.exponent[0];
    if n.fraction != "" {
      forall j | a + 1 <= j < f ensures IsDigit(s[j]) { assert s[j] == n.fraction[1..][j - a - 1]; }
      DigitsSpan(s, a + 1, f);
    }
  }

  lemma ExponentEnds(s: string, f: nat)
    requires f <= |s| && ExponentPart(s[f..])
    ensures ExponentEnd(s, f) == |s|
  {
    var e := s[f..];
    if e != "" {
      assert e[0] == s[f] && e[1] == s[f + 1];
      var k := if e[1] in {'+', '-'} then 2 else 1;
      assert Digits(e[k..]) && e[k..] == s[f + k..];
      hide Digits;
      DigitsToEnd(s, f + k);
    }
  }

  lemma DigitsToEnd(s: string, i: nat)
    requires i <= |s| && Digits(s[i..])
    ensures i < |s| && IsDigit(s[i]) && DigitsEnd(s, i) == |s|
  {
    forall j | i <= j < |s| ensures IsDigit(s[j]) { assert s[j] == s[i..][j - i]; }
    DigitsSpan(s, i, |s|);
  }

  /** The number texts are exactly those of the grammar. */
  lemma NumberGrammar(text: string)
    ensures GoodNumber(text) <==> exists n: Numeral :: n.Valid() && n.Text() == text
  {
    if n: Numeral :| n.Valid() && n.Text() == text {
      HeadEnds(n);
      FractionEnds(n);
      assert text[|n.Head() + n.fraction|..] == n.exponent;
      ExponentEnds(text, |n.Head() + n.fraction|);
    }
    if GoodNumber(text) { PartsOfNumber(text); }
  }

  lemma DigitsBetween(s: string, i: nat)
    requires i < |s| && IsDigit(s[i])
    ensures Digits(s[i..DigitsEnd(s, i)])
  {
    DigitsOnly(s, i);
  }

  lemma WholePartFound(s: string)
    requires IntEnd(s, 0) > 0
    ensures var k := if s[0] == '-' then 1 else 0;
      k < IntEnd(s, 0) && WholePart(s[k..IntEnd(s, 0)])
  {
    DigitsBetween(s, if s[0] == '-' then 1 else 0);
  }

  lemma FractionPartFound(s: string, a: nat)
    requires a <= |s|
    ensures FractionPart(s[a..FractionEnd(s, a)])
  {
    var f := FractionEnd(s, a);
    if f > a {
      DigitsBetween(s, a + 1);
      assert s[a..f][1..] == s[a + 1..f];
    }
  }

  lemma ExponentPartFound(s: string, f: nat)
    requires f <= |s|
    ensures ExponentPart(s[f..ExponentEnd(s, f)])
  {
    var e := ExponentEnd(s, f);
    if e > f {
      var k := if s[f + 1] == '+' || s[f + 1] == '-' then 2 else 1;
      DigitsBetween(s, f + k);
      assert s[f..e][k..] == s[f + k..e];
    }
  }

  lemma FourParts(s: string, k: nat, a: nat, f: nat)
    requires k <= a <= f <= |s|
    ensures s[..k] + s[k..a] + s[a..f] + s[f..] == s
  {
  }

  lemma GoodNumberEnds(text: string)
    requires GoodNumber(text)
    ensures 0 < IntEnd(text, 0) && ExponentEnd(text, FractionEnd(text, IntEnd(text, 0))) == |text|
  {
  }

  lemma PartsOfNumber(text: string)
    requires GoodNumber(text)
    ensures exists n: Numeral :: n.Valid() && n.Text() == text
  {
    hide IntEnd, FractionEnd, ExponentEnd, WholePart, FractionPart, ExponentPart, GoodNumber;
    GoodNumberEnds(text);
    var a := IntEnd(text, 0);
    var f := FractionEnd(text, a);
    var k := if text[0] == '-' then 1 else 0;
    WholePartFound(text);
    FractionPartFound(text, a);
    ExponentPartFound(text, f);
    FourParts(text, k, a, f);
    assert text[f..|text|] == text[f..];
    var n := Numeral(k == 1, text[k..a], text[a..f], text[f..]);
    assert n.Head() == text[..k] + text[k..a] by { assert text[..k] == if k == 1 then "-" else ""; }
    assert n.Valid() && n.Text() == text;
  }

  /** No value can end inside a number. */
  lemma NumberCharacters(text: string, k: nat)
    requires GoodNumber(text) && k < |text|
    ensures !Ends(text, k)
  {
    forall i | 0 <= i <= |text| ensures forall j :: i <= j < DigitsEnd(text, i) ==> IsDigit(text[j]) {
      DigitsOnly(text, i);
    }
  }

  /** A number is consumed whole if and only if it fits the window; of a longer one a part is left over. */
  lemma NumberLands(s: string, i: nat, text: string)
    requires At(s, i, text) && GoodNumber(text) && Ends(s, i + |text|)
    ensures NumberEnd(s, i) == Some(i + |text|) <==> |text| <= WINDOW
    ensures |text| > WINDOW ==> Stuck(s, NumberEnd(s, i))
  {
    hide GoodNumber, NumberLength, Ends;
    if |text| <= WINDOW {
      ShortNumberLands(s, i, text);
    } else if NumberEnd(s, i).Some? {
      var k := NumberEnd(s, i).value - i;
      assert s[i + k] == text[k];
      NumberCharacters(text, k);
      SameEnds(s, i + k, text, k);
    }
  }

  lemma SameEnds(s: string, j: nat, text: string, k: nat)
    requires j < |s| && k < |text| && s[j] == text[k]
    ensures Ends(s, j) == Ends(text, k)
  {
  }

  lemma ShortNumberLands(s: string, i: nat, text: string)
    requires At(s, i, text) && GoodNumber(text) && Ends(s, i + |text|) && |text| <= WINDOW
    ensures NumberEnd(s, i) == Some(i + |text|)
  {
    var window := s[i..if i + WINDOW < |s| then i + WINDOW else |s|];
    var rest := window[|text|..];
    assert window == text + rest;
    assert rest != "" ==> rest[0] == s[i + |text|];
    NumberExtends(text, rest);
  }

  // ---------------------------------------------------------------- skipping lands past each value

  lemma ValueSkipsWs(s: string, i: nat)
    requires i <= |s|
    ensures ValueEnd(s, i) == ValueEnd(s, WsEnd(s, i))
  {
  }

  lemma ItemsSkipWs(s: string, i: nat)
    requires i <= |s|
    ensures ItemsEnd(s, i) == ItemsEnd(s, WsEnd(s, i))
  {
    ValueSkipsWs(s, i);
    hide ValueEnd, WsEnd;
  }

  lemma MembersSkipWs(s: string, i: nat)
    requires i <= |s|
    ensures MembersEnd(s, i) == MembersEnd(s, WsEnd(s, i))
  {
  }

  lemma PrintStarts(v: Value)
    requires Good(v)
    ensures Print(v) != "" && !IsWs(Print(v)[0]) && Print(v)[0] !in {',', ']', '}'}
  {
  }

  lemma {:induction false} ValueLands(s: string, i: nat, v: Value)
    requires At(s, i, Print(v)) && Good(v) && Ends(s, i + |Print(v)|)
    ensures if Fits(v) then ValueEnd(s, i) == Some(i + |Print(v)|) else Stuck(s, ValueEnd(s, i))
    decreases v, 0
  {
    hide FitsItems, FitsMembers, Ends, ObjectEnd, ArrayEnd, StringEnd, NumberEnd, At, PrintItems, PrintMembers, GoodItems,
      GoodMembers, GoodRaw, GoodNumber;
    PrintStarts(v);
    AtFirst(s, i, Print(v));
    match v
    case Text(raw) => StringLands(s, i, raw);
    case Number(text) =>
      GoodNumberStarts(text);
      NumberLands(s, i, text);
      NotAt(s, i, "true");
      NotAt(s, i, "false");
      NotAt(s, i, "null");
    case False =>
      NotAt(s, i, "true");
    case Null =>
      NotAt(s, i, "true");
      NotAt(s, i, "false");
    case True =>
    case Array(inner, items) => ArrayLands(s, i, v);
    case Object(inner, members) => ObjectLands(s, i, v);
  }

  lemma GoodNumberStarts(text: string)
    requires GoodNumber(text)
    ensures text != "" && (text[0] == '-' || IsDigit(text[0]))
  {
  }

  lemma {:induction false} ArrayLands(s: string, i: nat, v: Value)
    requires v.Array? && At(s, i, Print(v)) && Good(v)
    ensures i < |s| && ArrayEnd(s, i) == if FitsItems(v.items) then Some(i + |Print(v)|) else None
    decreases v.items, 2
  {
    hide ValueEnd, ItemsEnd, PrintItems, GoodItems;
    AtFirst(s, i, Print(v));
    var items, tail := v.items, if v.items.NoItems? then v.inner + "]" else PrintItems(v.items);
    assert Print(v) == "[" + tail && Print(v)[1..] == tail;
    if items.NoItems? {
      AtSplit(s, i + 1, v.inner, "]");
      AtFirst(s, i + 1 + |v.inner|, "]");
      WsLands(s, i + 1, v.inner);
      assert ArrayEnd(s, i) == Some(i + 1 + |v.inner| + 1);
    } else {
      hide At, WsEnd;
      ItemsStart(s, i + 1, items);
      ItemsLand(s, i + 1, items);
      ItemsSkipWs(s, i + 1);
    }
  }

  lemma {:induction false} ObjectLands(s: string, i: nat, v: Value)
    requires v.Object? && At(s, i, Print(v)) && Good(v)
    ensures i < |s| && ObjectEnd(s, i) == if FitsMembers(v.members) then Some(i + |Print(v)|) else None
    decreases v.members, 3
  {
    hide ValueEnd, MembersEnd, PrintMembers, GoodMembers;
    AtFirst(s, i, Print(v));
    var members, tail := v.members, if v.members.NoMembers? then v.inner + "}" else PrintMembers(v.members);
    assert Print(v) == "{" + tail && Print(v)[1..] == tail;
    if members.NoMembers? {
      AtSplit(s, i + 1, v.inner, "}");
      AtFirst(s, i + 1 + |v.inner|, "}");
      WsLands(s, i + 1, v.inner);
    } else {
      hide At, WsEnd;
      MembersStart(s, i + 1, members);
      MembersLand(s, i + 1, members);
      MembersSkipWs(s, i + 1);
    }
  }

  lemma NotAt(s: string, i: nat, t: string)
    requires t != "" && i < |s| && s[i] != t[0]
    ensures !At(s, i, t)
  {
  }

  lemma ItemsStart(s: string, i: nat, items: Items)
    requires items.Item? && At(s, i, PrintItems(items)) && GoodItems(items)
    ensures WsEnd(s, i) == i + |items.lead| < |s| && s[i + |items.lead|] != ']'
  {
    var tail := items.trail + AfterItem(items.rest);
    AtSplit(s, i, items.lead, Print(items.value) + tail);
    AtSplit(s, i + |items.lead|, Print(items.value), tail);
    PrintStarts(items.value);
    AtFirst(s, i + |items.lead|, Print(items.value));
    WsLands(s, i, items.lead);
  }

  lemma MembersStart(s: string, i: nat, members: Members)
    requires members.Member? && At(s, i, PrintMembers(members)) && GoodMembers(members)
    ensures WsEnd(s, i) == i + |members.before| < |s| && s[i + |members.before|] == '"'
  {
    var tail := members.mid + (":" + PrintMemberValue(members));
    AtSplit(s, i, members.before, Quoted(members.key) + tail);
    AtSplit(s, i + |members.before|, Quoted(members.key), tail);
    AtFirst(s, i + |members.before|, Quoted(members.key));
    WsLands(s, i, members.before);
  }

  /** A value between its whitespace, followed by one of the characters that may follow it. */
  lemma {:induction false} SpacedLands(s: string, i: nat, lead: string, v: Value, trail: string, after: string)
    requires At(s, i, lead + (Print(v) + (trail + after))) && AllWs(lead) && Good(v) && AllWs(trail)
    requires after != "" && after[0] in {',', ']', '}'}
    ensures var end := i + |lead| + |Print(v)|;
      && i + |lead| <= end <= |s| && WsEnd(s, i) == i + |lead| && At(s, i + |lead|, Print(v))
      && (if Fits(v) then ValueEnd(s, i) == Some(end) else Stuck(s, ValueEnd(s, i)))
      && WsEnd(s, end) == end + |trail| && At(s, end + |trail|, after)
    decreases v, 1
  {
    hide ValueEnd, Print, Good, WsEnd, At, AllWs, Ends, Fits, Stuck;
    SpacedWs(s, i, lead, v, trail, after);
    ValueLands(s, i + |lead|, v);
    ValueSkipsWs(s, i);
  }

  lemma SpacedWs(s: string, i: nat, lead: string, v: Value, trail: string, after: string)
    requires At(s, i, lead + (Print(v) + (trail + after))) && AllWs(lead) && Good(v) && AllWs(trail)
    requires after != "" && after[0] in {',', ']', '}'}
    ensures var at := i + |lead|; var end := at + |Print(v)|;
      && at <= end <= |s| && WsEnd(s, i) == at && At(s, at, Print(v)) && Ends(s, end)
      && WsEnd(s, end) == end + |trail| && At(s, end + |trail|, after)
  {
    hide Print, Good, At, WsEnd;
    PrintStarts(v);
    var at, end := i + |lead|, i + |lead| + |Print(v)|;
    AtSplit(s, i, lead, Print(v) + (trail + after));
    AtSplit(s, at, Print(v), trail + after);
    AtSplit(s, end, trail, after);
    AtFirst(s, end + |trail|, after);
    WsLands(s, end, trail);
    AtFirst(s, at, Print(v));
    WsLands(s, i, lead);
    if trail != "" { AtFirst(s, end, trail); }
  }

  lemma {:induction false} ItemsLand(s: string, i: nat, items: Items)
    requires items.Item? && At(s, i, PrintItems(items)) && GoodItems(items)
    ensures ItemsEnd(s, i) == if FitsItems(items) then Some(i + |PrintItems(items)|) else None
    decreases items, 1
  {
    hide ValueEnd, Print, Good, WsEnd, At, AllWs, Fits;
    var after := AfterItem(items.rest);
    SpacedLands(s, i, items.lead, items.value, items.trail, after);
    var j := i + |items.lead| + |Print(items.value)| + |items.trail|;
    AtFirst(s, j, after);
    if !Fits(items.value) {
      StuckItem(s, i);
    } else if items.rest.Item? {
      assert after[1..] == PrintItems(items.rest);
      ItemsLand(s, j + 1, items.rest);
    }
  }

  lemma StuckItem(s: string, i: nat)
    requires i <= |s| && Stuck(s, ValueEnd(s, i))
    ensures ItemsEnd(s, i) == None
  {
    hide ValueEnd;
  }

  lemma StuckMember(s: string, i: nat, end: nat, colon: nat)
    requires i <= |s| && StringEnd(s, WsEnd(s, i)) == Some(end) && WsEnd(s, end) == colon < |s| && s[colon] == ':'
    requires Stuck(s, ValueEnd(s, colon + 1))
    ensures MembersEnd(s, i) == None
  {
    hide StringEnd, ValueEnd;
  }

  lemma GoodMemberParts(members: Members)
    requires members.Member? && GoodMembers(members)
    ensures GoodRaw(members.key) && AllWs(members.mid)
    ensures AllWs(members.lead) && Good(members.value) && AllWs(members.trail) && GoodMembers(members.rest)
  {
  }

  lemma MemberParts(members: Members)
    requires members.Member?
    ensures PrintMembers(members) == members.before + (Quoted(members.key) + (members.mid + (":" + PrintMemberValue(members))))
    ensures PrintMemberValue(members) ==
      members.lead + (Print(members.value) + (members.trail + AfterMember(members.rest)))
    ensures (":" + PrintMemberValue(members))[1..] == PrintMemberValue(members)
  {
  }

  /** The key, the colon and what surrounds them. */
  lemma KeyLands(s: string, i: nat, members: Members)
    requires members.Member? && At(s, i, PrintMembers(members)) && GoodMembers(members)
    ensures var start := i + |members.before|; var end := start + |Quoted(members.key)|; var colon := end + |members.mid|;
      && colon < |s| && WsEnd(s, i) == start && StringEnd(s, start) == Some(end)
      && At(s, start, Quoted(members.key)) && StringEnd(s, WsEnd(s, i)) == Some(end)
      && WsEnd(s, end) == colon && s[colon] == ':' && At(s, colon + 1, PrintMemberValue(members))
  {
    hide At, Quoted, GoodRaw, GoodMembers, PrintMembers, PrintMemberValue, StringEnd, AllWs, WsEnd;
    MembersStart(s, i, members);
    GoodMemberParts(members);
    MemberParts(members);
    var start, tail := i + |members.before|, ":" + PrintMemberValue(members);
    var end := start + |Quoted(members.key)|;
    AtSplit(s, i, members.before, Quoted(members.key) + (members.mid + tail));
    AtSplit(s, start, Quoted(members.key), members.mid + tail);
    AtSplit(s, end, members.mid, tail);
    AtFirst(s, end + |members.mid|, tail);
    StringLands(s, start, members.key);
    WsLands(s, end, members.mid);
  }

  /** One member at `i`: its key, colon and value, and the character at `j` that follows. */
  lemma OneMember(s: string, i: nat, end: nat, colon: nat, valueEnd: nat, j: nat)
    requires i <= |s| && StringEnd(s, WsEnd(s, i)) == Some(end) && WsEnd(s, end) == colon < |s| && s[colon] == ':'
    requires ValueEnd(s, colon + 1) == Some(valueEnd) && WsEnd(s, valueEnd) == j < |s|
    ensures MembersEnd(s, i) == if s[j] == '}' then Some(j + 1) else if s[j] == ',' then MembersEnd(s, j + 1) else None
  {
    hide StringEnd, ValueEnd, WsEnd;
  }

  /** Where the first member's value begins, measured from the member's beginning. */
  function KeyLength(members: Members): nat
    requires members.Member?
  {
    |members.before| + |Quoted(members.key)| + |members.mid| + 1
  }

  function SpacedLength(members: Members): nat
    requires members.Member?
  {
    |members.lead| + |Print(members.value)| + |members.trail|
  }

  lemma MembersLength(members: Members)
    requires members.Member?
    ensures |PrintMembers(members)| == KeyLength(members) + SpacedLength(members) + |AfterMember(members.rest)|
    ensures members.rest.Member? ==> AfterMember(members.rest)[1..] == PrintMembers(members.rest)
    ensures AfterMember(members.rest) != "" && AfterMember(members.rest)[0] == if members.rest.Member? then ',' else '}'
    ensures members.rest.NoMembers? ==> |AfterMember(members.rest)| == 1
  {
  }

  /** From the colon to the character after the value and its whitespace. */
  lemma {:induction false} MemberValueLands(s: string, c: nat, members: Members)
    requires members.Member? && At(s, c, PrintMemberValue(members)) && GoodMembers(members)
    ensures var valueEnd := c + |members.lead| + |Print(members.value)|; var j := c + SpacedLength(members);
      && c <= valueEnd <= j < |s| && WsEnd(s, valueEnd) == j
      && (if Fits(members.value) then ValueEnd(s, c) == Some(valueEnd) else Stuck(s, ValueEnd(s, c)))
      && WsEnd(s, c) == c + |members.lead| && At(s, c + |members.lead|, Print(members.value))
      && At(s, j, AfterMember(members.rest))
      && s[j] == if members.rest.Member? then ',' else '}'
    decreases members, 0
  {
    hide ValueEnd, Print, Good, WsEnd, At, AllWs, GoodMembers, PrintMemberValue, PrintMembers, AfterMember, KeyLength, Fits,
      Stuck;
    var after := AfterMember(members.rest);
    GoodMemberParts(members);
    MemberParts(members);
    MembersLength(members);
    SpacedLands(s, c, members.lead, members.value, members.trail, after);
    AtFirst(s, c + SpacedLength(members), after);
  }

  /** The whole first member, and what is left to skip behind it. */
  lemma {:induction false} MemberLands(s: string, i: nat, members: Members)
    requires members.Member? && At(s, i, PrintMembers(members)) && GoodMembers(members)
    ensures var j := i + KeyLength(members) + SpacedLength(members);
      && j < |s| && At(s, j, AfterMember(members.rest))
      && MembersEnd(s, i) ==
           if !Fits(members.value) then None else if members.rest.Member? then MembersEnd(s, j + 1) else Some(j + 1)
    decreases members, 1
  {
    hide Fits, Stuck, Quoted, SpacedLength, MembersEnd, ValueEnd, StringEnd, Print, WsEnd, At, GoodMembers, PrintMembers,
      AfterMember, PrintMemberValue;
    var end := i + |members.before| + |Quoted(members.key)|;
    var colon := end + |members.mid|;
    KeyLands(s, i, members);
    MemberValueLands(s, colon + 1, members);
    if !Fits(members.value) {
      StuckMember(s, i, end, colon);
      return;
    }
    OneMember(s, i, end, colon, colon + 1 + |members.lead| + |Print(members.value)|, colon + 1 + SpacedLength(members));
  }

  lemma {:induction false} MembersLand(s: string, i: nat, members: Members)
    requires members.Member? && At(s, i, PrintMembers(members)) && GoodMembers(members)
    ensures MembersEnd(s, i) == if FitsMembers(members) then Some(i + |PrintMembers(members)|) else None
    decreases members, 2
  {
    hide MembersEnd, PrintMembers, GoodMembers, At, KeyLength, SpacedLength, AfterMember, Fits;
    MembersLength(members);
    MemberLands(s, i, members);
    if members.rest.Member? {
      GoodMemberParts(members);
      var j := i + KeyLength(members) + SpacedLength(members);
      AtFirst(s, j, AfterMember(members.rest));
      MembersLand(s, j + 1, members.rest);
    }
  }
}

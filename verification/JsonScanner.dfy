/**
 The scanner for request bodies too large to parse: it finds `model`, `request_id` and `stream` among the
 members of one JSON object and skips everything else. The loops are proved against `JsonText`; what they
 compute is proved to be what parsing the whole text would give.
 */
module JsonScanner {
  import opened RouterTypes
  import opened JsonText

  /** The library's string decoder, given what stands between the quotes. */
  type Decoder = string -> Option<string>

  datatype Metadata = Metadata(model: Option<string>, requestId: Option<string>, stream: Option<bool>)

  const NOTHING := Metadata(None, None, None)

  // ---------------------------------------------------------------- what the scan computes

  datatype Decoded = Decoded(text: string, end: nat)

  function DecodedAt(decode: Decoder, s: string, i: nat): (r: Option<Decoded>)
    ensures r.Some? ==> i < r.value.end <= |s|
  {
    var end := StringEnd(s, i);
    if end.None? then None
    else
      var text := decode(s[i + 1..end.value - 1]);
      if text.None? then None else Some(Decoded(text.value, end.value))
  }

  datatype Reading = Reading(metadata: Metadata, end: nat)

  predicate IsMetadataKey(key: string) {
    key == "model" || key == "request_id" || key == "stream"
  }

  function WithText(m: Metadata, key: string, text: string): Metadata {
    if text == "" then m else if key == "model" then m.(model := Some(text)) else m.(requestId := Some(text))
  }

  function ReadAt(decode: Decoder, s: string, m: Metadata, key: string, i: nat): (r: Option<Reading>)
    requires i <= |s|
    ensures r.Some? ==> i < r.value.end <= |s|
  {
    if key == "stream" && At(s, i, "true") then Some(Reading(m.(stream := Some(true)), i + 4))
    else if key == "stream" && At(s, i, "false") then Some(Reading(m.(stream := Some(false)), i + 5))
    else if (key == "model" || key == "request_id") && i < |s| && s[i] == '"' then
      var text := DecodedAt(decode, s, i);
      if text.None? then None else Some(Reading(WithText(m, key, text.value.text), text.value.end))
    else
      var end := ValueEnd(s, i);
      if end.None? then None else Some(Reading(m, end.value))
  }

  /** From the beginning of a member to the end of the text. */
  function ScanMembers(decode: Decoder, s: string, i: nat, m: Metadata): Option<Metadata>
    requires i <= |s|
    decreases |s| - i, 1
  {
    ScanFrom(decode, s, WsEnd(s, i), m)
  }

  function ScanFrom(decode: Decoder, s: string, i: nat, m: Metadata): Option<Metadata>
    requires i <= |s|
    decreases |s| - i, 0
  {
    var key := DecodedAt(decode, s, i);
    if key.None? then None
    else
      var k := WsEnd(s, key.value.end);
      if k >= |s| || s[k] != ':' then None
      else
        var reading := ReadAt(decode, s, m, key.value.text, WsEnd(s, k + 1));
        if reading.None? then None
        else
          var j := WsEnd(s, reading.value.end);
          if j >= |s| then None
          else if s[j] == '}' then (if WsEnd(s, j + 1) == |s| then Some(reading.value.metadata) else None)
          else if s[j] != ',' then None
          else ScanMembers(decode, s, j + 1, reading.value.metadata)
  }

  function Scan(decode: Decoder, s: string): Option<Metadata> {
    var i := WsEnd(s, 0);
    if i >= |s| || s[i] != '{' then None
    else
      var k := WsEnd(s, i + 1);
      if k < |s| && s[k] == '}' then (if WsEnd(s, k + 1) == |s| then Some(NOTHING) else None)
      else ScanMembers(decode, s, k, NOTHING)
  }

  // ---------------------------------------------------------------- the scanner

  class JsonTopLevelScanner {
    const body: string
    const decode: Decoder

    constructor (body: string, decode: Decoder)
      ensures this.body == body && this.decode == decode
    {
      this.body, this.decode := body, decode;
    }

    method SkipWs(start: nat) returns (index: nat)
      requires start <= |body|
      ensures index == WsEnd(body, start)
    {
      index := start;
      while index < |body| && IsWs(body[index])
        invariant index <= |body| && WsEnd(body, index) == WsEnd(body, start)
      {
        index := index + 1;
      }
    }

    method SkipString(start: nat) returns (end: Option<nat>)
      requires start <= |body|
      ensures end == StringEnd(body, start)
    {
      if start >= |body| || body[start] != '"' {
        return None;
      }
      var index := start + 1;
      while index < |body|
        invariant RawEnd(body, index) == StringEnd(body, start)
      {
        if body[index] == '"' {
          return Some(index + 1);
        }
        if body[index] == '\\' {
          index := index + 2;
        } else {
          if body[index] < ' ' {
            return None;
          }
          index := index + 1;
        }
      }
      return None;
    }

    method SkipNumber(index: nat) returns (end: Option<nat>)
      requires index <= |body|
      ensures end == NumberEnd(body, index)
    {
      var window := body[index..if index + WINDOW < |body| then index + WINDOW else |body|];
      var consumed := NumberLength(window);
      return if consumed.None? then None else Some(index + consumed.value);
    }

    method SkipValue(start: nat) returns (end: Option<nat>)
      requires start <= |body|
      ensures end == ValueEnd(body, start)
      decreases |body| - start, 2
    {
      hide StringEnd, NumberEnd, ObjectEnd, ArrayEnd, WsEnd;
      var index := SkipWs(start);
      if index >= |body| {
        return None;
      }
      if body[index] == '"' {
        end := SkipString(index);
        return;
      }
      if body[index] == '{' {
        end := SkipObject(index);
        return;
      }
      if body[index] == '[' {
        end := SkipArray(index);
        return;
      }
      if At(body, index, "true") {
        return Some(index + 4);
      }
      if At(body, index, "false") {
        return Some(index + 5);
      }
      if At(body, index, "null") {
        return Some(index + 4);
      }
      end := SkipNumber(index);
    }

    method SkipObject(start: nat) returns (end: Option<nat>)
      requires start < |body|
      ensures end == ObjectEnd(body, start)
      decreases |body| - start, 1
    {
      hide StringEnd, ValueEnd, WsEnd;
      var index := SkipWs(start + 1);
      if index < |body| && body[index] == '}' {
        return Some(index + 1);
      }
      while true
        invariant start < index <= |body| && MembersEnd(body, index) == ObjectEnd(body, start)
        decreases |body| - index
      {
        var at := SkipWs(index);
        var key := SkipString(at);
        if key.None? {
          return None;
        }
        var colon := SkipWs(key.value);
        if colon >= |body| || body[colon] != ':' {
          return None;
        }
        var value := SkipValue(colon + 1);
        if value.None? {
          return None;
        }
        var next := SkipWs(value.value);
        if next >= |body| {
          return None;
        }
        if body[next] == '}' {
          return Some(next + 1);
        }
        if body[next] != ',' {
          return None;
        }
        index := next + 1;
      }
    }

    method SkipArray(start: nat) returns (end: Option<nat>)
      requires start < |body|
      ensures end == ArrayEnd(body, start)
      decreases |body| - start, 1
    {
      hide ValueEnd, WsEnd;
      var index := SkipWs(start + 1);
      if index < |body| && body[index] == ']' {
        return Some(index + 1);
      }
      while true
        invariant start < index <= |body| && ItemsEnd(body, index) == ArrayEnd(body, start)
        decreases |body| - index
      {
        var value := SkipValue(index);
        if value.None? {
          return None;
        }
        var next := SkipWs(value.value);
        if next >= |body| {
          return None;
        }
        if body[next] == ']' {
          return Some(next + 1);
        }
        if body[next] != ',' {
          return None;
        }
        index := next + 1;
      }
    }

    method ParseString(start: nat) returns (r: Option<Decoded>)
      requires start <= |body|
      ensures r == DecodedAt(decode, body, start)
    {
      var end := SkipString(start);
      if end.None? {
        return None;
      }
      var text := decode(body[start + 1..end.value - 1]);
      return if text.None? then None else Some(Decoded(text.value, end.value));
    }

    method ReadMetadataValue(m: Metadata, key: string, index: nat) returns (r: Option<Reading>)
      requires index <= |body| && IsMetadataKey(key)
      ensures r == ReadAt(decode, body, m, key, index)
    {
      if key == "stream" {
        if At(body, index, "true") {
          return Some(Reading(m.(stream := Some(true)), index + 4));
        }
        if At(body, index, "false") {
          return Some(Reading(m.(stream := Some(false)), index + 5));
        }
      } else if index < |body| && body[index] == '"' {
        var text := ParseString(index);
        if text.None? {
          return None;
        }
        var after := m;
        if text.value.text != "" {
          if key == "model" {
            after := after.(model := Some(text.value.text));
          } else {
            after := after.(requestId := Some(text.value.text));
          }
        }
        return Some(Reading(after, text.value.end));
      }
      var end := SkipValue(index);
      return if end.None? then None else Some(Reading(m, end.value));
    }

    method ScanMetadata() returns (r: Option<Metadata>)
      ensures r == Scan(decode, body)
    {
      hide WsEnd, DecodedAt, ReadAt, ValueEnd;
      var index := SkipWs(0);
      if index >= |body| || body[index] != '{' {
        return None;
      }
      index := SkipWs(index + 1);
      if index < |body| && body[index] == '}' {
        index := SkipWs(index + 1);
        return if index != |body| then None else Some(NOTHING);
      }
      var metadata := NOTHING;
      while true
        invariant index <= |body| && ScanMembers(decode, body, index, metadata) == Scan(decode, body)
        decreases |body| - index
      {
        var at := SkipWs(index);
        var key := ParseString(at);
        if key.None? {
          return None;
        }
        var colon := SkipWs(key.value.end);
        if colon >= |body| || body[colon] != ':' {
          return None;
        }
        var value := SkipWs(colon + 1);
        var reading: Option<Reading>;
        if IsMetadataKey(key.value.text) {
          reading := ReadMetadataValue(metadata, key.value.text, value);
        } else {
          var end := SkipValue(value);
          reading := if end.None? then None else Some(Reading(metadata, end.value));
          OtherKeysAreSkipped(decode, body, metadata, key.value.text, value);
        }
        if reading.None? {
          return None;
        }
        var next := SkipWs(reading.value.end);
        if next >= |body| {
          return None;
        }
        if body[next] == '}' {
          var last := SkipWs(next + 1);
          return if last != |body| then None else Some(reading.value.metadata);
        }
        if body[next] != ',' {
          return None;
        }
        index, metadata := next + 1, reading.value.metadata;
      }
    }
  }

  lemma OtherKeysAreSkipped(decode: Decoder, s: string, m: Metadata, key: string, i: nat)
    requires i <= |s| && !IsMetadataKey(key)
    ensures ReadAt(decode, s, m, key, i) == if ValueEnd(s, i).None? then None else Some(Reading(m, ValueEnd(s, i).value))
  {
  }

  // ---------------------------------------------------------------- what parsing the whole text gives

  /** The decoder accepts every key of the object, and every string it gives a metadata key. */
  predicate Decodes(decode: Decoder, members: Members) {
    members.NoMembers? ||
    (&& decode(members.key).Some?
     && (members.value.Text? && decode(members.key).value in {"model", "request_id"} ==> decode(members.value.raw).Some?)
     && Decodes(decode, members.rest))
  }

  /** A non-empty string, or nothing. */
  function TextOf(decode: Decoder, v: Value): Option<string> {
    if v.Text? && decode(v.raw).Some? && decode(v.raw).value != "" then decode(v.raw) else None
  }

  /** The object as a dictionary: the last member of a name counts. */
  function Dictionary(decode: Decoder, members: Members): map<string, Value>
    requires Decodes(decode, members)
  {
    if members.NoMembers? then map[]
    else map[decode(members.key).value := members.value] + Dictionary(decode, members.rest)
  }

  function TextAt(decode: Decoder, members: Members, key: string): Option<string>
    requires Decodes(decode, members)
  {
    var d := Dictionary(decode, members);
    if key in d then TextOf(decode, d[key]) else None
  }

  predicate StreamAt(decode: Decoder, members: Members)
    requires Decodes(decode, members)
  {
    var d := Dictionary(decode, members);
    "stream" in d && d["stream"].True?
  }

  // ---------------------------------------------------------------- what the scan makes of a tree

  function Noted(decode: Decoder, m: Metadata, key: string, v: Value): Metadata {
    if key == "stream" then
      if v.True? then m.(stream := Some(true)) else if v.False? then m.(stream := Some(false)) else m
    else if key == "model" && TextOf(decode, v).Some? then m.(model := TextOf(decode, v))
    else if key == "request_id" && TextOf(decode, v).Some? then m.(requestId := TextOf(decode, v))
    else m
  }

  function NotedAll(decode: Decoder, m: Metadata, members: Members): Metadata
    requires Decodes(decode, members)
    decreases members
  {
    if members.NoMembers? then m
    else NotedAll(decode, Noted(decode, m, decode(members.key).value, members.value), members.rest)
  }

  lemma DecodedLands(decode: Decoder, s: string, i: nat, raw: string)
    requires At(s, i, Quoted(raw)) && GoodRaw(raw) && decode(raw).Some?
    ensures DecodedAt(decode, s, i) == Some(Decoded(decode(raw).value, i + |Quoted(raw)|))
  {
    hide GoodRaw, StringEnd;
    StringLands(s, i, raw);
    assert Quoted(raw) == "\"" + (raw + "\"");
    AtSplit(s, i, "\"", raw + "\"");
    AtSplit(s, i + 1, raw, "\"");
  }

  /** Reading a metadata member notes its value and lands exactly past it, unless some number in it is too long. */
  lemma ReadLands(decode: Decoder, s: string, m: Metadata, key: string, i: nat, v: Value)
    requires i <= |s| && At(s, i, Print(v)) && Good(v)
    requires if Fits(v) then ValueEnd(s, i) == Some(i + |Print(v)|) else Stuck(s, ValueEnd(s, i))
    requires v.Text? && key in {"model", "request_id"} ==> decode(v.raw).Some?
    ensures var reading := ReadAt(decode, s, m, key, i);
      if Fits(v) then reading == Some(Reading(Noted(decode, m, key, v), i + |Print(v)|))
      else reading.None? || !Ends(s, reading.value.end)
  {
    hide At, DecodedAt, ValueEnd, Good, GoodRaw, Ends;
    if v.Text? && key in {"model", "request_id"} {
      assert GoodRaw(v.raw) by { GoodTextRaw(v); }
      DecodedLands(decode, s, i, v.raw);
      AtFirst(s, i, Print(v));
    } else {
      WordsApart(s, i, v);
    }
  }

  lemma GoodTextRaw(v: Value)
    requires v.Text? && Good(v)
    ensures GoodRaw(v.raw)
  {
  }

  /** Only the boolean literals begin as they do, and only strings with a quote. */
  lemma WordsApart(s: string, i: nat, v: Value)
    requires At(s, i, Print(v)) && Good(v)
    ensures At(s, i, "true") <==> v.True?
    ensures At(s, i, "false") <==> v.False?
    ensures i < |s| && (s[i] == '"' <==> v.Text?)
  {
    hide At;
    PrintStarts(v);
    AtFirst(s, i, Print(v));
    if v.Number? { GoodNumberStarts(v.text); }
    if !v.True? { NotAt(s, i, "true"); }
    if !v.False? { NotAt(s, i, "false"); }
  }

  lemma KeyIsRead(decode: Decoder, s: string, i: nat, members: Members)
    requires members.Member? && At(s, i, PrintMembers(members)) && GoodMembers(members)
    requires decode(members.key).Some?
    ensures var key := Decoded(decode(members.key).value, i + |members.before| + |Quoted(members.key)|);
      var c := i + KeyLength(members);
      && DecodedAt(decode, s, WsEnd(s, i)) == Some(key)
      && c <= |s| && WsEnd(s, key.end) == c - 1 && s[c - 1] == ':' && At(s, c, PrintMemberValue(members))
  {
    hide At, Quoted, PrintMembers, PrintMemberValue, WsEnd, StringEnd, GoodMembers, DecodedAt;
    KeyLands(s, i, members);
    GoodMemberParts(members);
    DecodedLands(decode, s, i + |members.before|, members.key);
  }

  /** Where no value can end, the separator is missing. */
  lemma NoSeparator(s: string, j: nat)
    requires j <= |s| && !Ends(s, j)
    ensures j < |s| && WsEnd(s, j) == j && s[j] !in {',', '}'}
  {
  }

  /** One member: noted, and skipped to the character that follows it. */
  lemma MemberIsNoted(decode: Decoder, s: string, i: nat, m: Metadata, members: Members)
    requires members.Member? && At(s, i, PrintMembers(members)) && GoodMembers(members) && Decodes(decode, members)
    ensures var j := i + KeyLength(members) + SpacedLength(members);
      var next := Noted(decode, m, decode(members.key).value, members.value);
      && j < |s| && At(s, j, AfterMember(members.rest))
      && ScanMembers(decode, s, i, m) ==
           if !Fits(members.value) then None
           else if members.rest.Member? then ScanMembers(decode, s, j + 1, next)
           else if WsEnd(s, j + 1) == |s| then Some(next) else None
  {
    hide At, Quoted, Print, PrintMembers, PrintMemberValue, WsEnd, ValueEnd, GoodMembers, DecodedAt, ReadAt, KeyLength,
      SpacedLength, AfterMember, Good, AllWs, Noted, Fits;
    var c := i + KeyLength(members);
    KeyIsRead(decode, s, i, members);
    GoodMemberParts(members);
    MemberValueLands(s, c, members);
    ValueSkipsWs(s, c);
    var key, at := decode(members.key).value, c + |members.lead|;
    ReadLands(decode, s, m, key, at, members.value);
    if !Fits(members.value) && ReadAt(decode, s, m, key, at).Some? {
      NoSeparator(s, ReadAt(decode, s, m, key, at).value.end);
    }
  }

  lemma {:induction false} MembersAreNoted(decode: Decoder, s: string, i: nat, m: Metadata, members: Members)
    requires members.Member? && At(s, i, PrintMembers(members)) && GoodMembers(members) && Decodes(decode, members)
    requires WsEnd(s, i + |PrintMembers(members)|) == |s|
    ensures ScanMembers(decode, s, i, m) == if FitsMembers(members) then Some(NotedAll(decode, m, members)) else None
    decreases members
  {
    hide At, PrintMembers, WsEnd, GoodMembers, KeyLength, SpacedLength, AfterMember, ScanMembers, Noted, Fits;
    MembersLength(members);
    MemberIsNoted(decode, s, i, m, members);
    if members.rest.Member? {
      var j := i + KeyLength(members) + SpacedLength(members);
      GoodMemberParts(members);
      AtFirst(s, j, AfterMember(members.rest));
      MembersAreNoted(decode, s, j + 1, Noted(decode, m, decode(members.key).value, members.value), members.rest);
    }
  }

  /** A text that is one printed object between whitespace. */
  function ObjectText(lead: string, inner: string, members: Members, trail: string): string {
    lead + (Print(Object(inner, members)) + trail)
  }

  predicate GoodText(lead: string, inner: string, members: Members, trail: string) {
    AllWs(lead) && AllWs(inner) && GoodMembers(members) && AllWs(trail)
  }

  lemma EmptyObjectScans(decode: Decoder, lead: string, inner: string, trail: string)
    requires GoodText(lead, inner, NoMembers, trail)
    ensures Scan(decode, ObjectText(lead, inner, NoMembers, trail)) == Some(NOTHING)
  {
    hide At, WsEnd, Print, ScanMembers;
    var s, printed := ObjectText(lead, inner, NoMembers, trail), Print(Object(inner, NoMembers));
    var i := |lead|;
    WholeText(lead, inner, NoMembers, trail);
    ObjectPrints(inner, NoMembers);
    AtFirst(s, i, printed);
    AtSplit(s, i + 1, inner, "}");
    AtFirst(s, i + 1 + |inner|, "}");
    WsLands(s, i + 1, inner);
  }

  lemma ObjectScans(decode: Decoder, lead: string, inner: string, members: Members, trail: string)
    requires GoodText(lead, inner, members, trail) && Decodes(decode, members) && members.Member?
    ensures Scan(decode, ObjectText(lead, inner, members, trail)) ==
      if FitsMembers(members) then Some(NotedAll(decode, NOTHING, members)) else None
  {
    hide At, WsEnd, GoodMembers, PrintMembers, ScanMembers, NotedAll, Print, FitsMembers;
    var s, printed := ObjectText(lead, inner, members, trail), Print(Object(inner, members));
    var i := |lead|;
    WholeText(lead, inner, members, trail);
    ObjectPrints(inner, members);
    AtFirst(s, i, printed);
    MembersStart(s, i + 1, members);
    MembersAreNoted(decode, s, i + 1, NOTHING, members);
    ScanSkipsWs(decode, s, i + 1, NOTHING);
  }

  /**
   A well-formed object text is refused if some number in it, however deep, is longer than the decoding window;
   every other one is scanned to its end and every member noted in order.
   */
  lemma ScanNotesEveryMember(decode: Decoder, lead: string, inner: string, members: Members, trail: string)
    requires GoodText(lead, inner, members, trail) && Decodes(decode, members)
    ensures Scan(decode, ObjectText(lead, inner, members, trail)) ==
      if FitsMembers(members) then Some(NotedAll(decode, NOTHING, members)) else None
  {
    hide Scan, ObjectText, GoodText;
    if members.NoMembers? {
      EmptyObjectScans(decode, lead, inner, trail);
    } else {
      ObjectScans(decode, lead, inner, members, trail);
    }
  }

  lemma ObjectPrints(inner: string, members: Members)
    ensures var printed := Print(Object(inner, members));
      && printed != "" && printed[0] == '{'
      && printed[1..] == (if members.NoMembers? then inner + "}" else PrintMembers(members))
      && |printed| == 1 + |printed[1..]|
  {
  }

  lemma AtWhole(s: string)
    ensures At(s, 0, s)
  {
  }

  lemma WholeText(lead: string, inner: string, members: Members, trail: string)
    requires AllWs(lead) && AllWs(trail)
    ensures var s, printed := ObjectText(lead, inner, members, trail), Print(Object(inner, members));
      && |s| == |lead| + |printed| + |trail| && WsEnd(s, 0) == |lead| && WsEnd(s, |lead| + |printed|) == |s|
      && At(s, |lead|, printed) && At(s, |lead| + |printed|, trail)
  {
    var s, printed := ObjectText(lead, inner, members, trail), Print(Object(inner, members));
    hide At, Print, AllWs, WsEnd;
    AtWhole(s);
    ObjectPrints(inner, members);
    AtSplit(s, 0, lead, printed + trail);
    AtSplit(s, |lead|, printed, trail);
    AtFirst(s, |lead|, printed);
    WsLands(s, 0, lead);
    WsLands(s, |lead| + |printed|, trail);
  }

  lemma ScanSkipsWs(decode: Decoder, s: string, i: nat, m: Metadata)
    requires i <= |s|
    ensures ScanMembers(decode, s, i, m) == ScanMembers(decode, s, WsEnd(s, i), m)
  {
  }

  // ---------------------------------------------------------------- and when it is what parsing gives

  predicate NamedSomewhere(decode: Decoder, members: Members, key: string)
    requires Decodes(decode, members)
  {
    members.Member? && (decode(members.key).value == key || NamedSomewhere(decode, members.rest, key))
  }

  predicate DistinctNames(decode: Decoder, members: Members)
    requires Decodes(decode, members)
  {
    members.Member? ==>
      !NamedSomewhere(decode, members.rest, decode(members.key).value) && DistinctNames(decode, members.rest)
  }

  /** Some member of this name is a non-empty string. */
  predicate SomeText(decode: Decoder, members: Members, key: string)
    requires Decodes(decode, members)
  {
    members.Member? &&
    ((decode(members.key).value == key && TextOf(decode, members.value).Some?) || SomeText(decode, members.rest, key))
  }

  /** Some `stream` member is `true` and no boolean one follows it. */
  predicate EndsTrue(decode: Decoder, members: Members, so: bool)
    requires Decodes(decode, members)
  {
    if members.NoMembers? then so
    else EndsTrue(decode, members.rest,
                  if decode(members.key).value != "stream" then so
                  else if members.value.True? then true else if members.value.False? then false else so)
  }

  lemma {:induction false} InDictionary(decode: Decoder, members: Members, key: string)
    requires Decodes(decode, members)
    ensures key in Dictionary(decode, members) <==> NamedSomewhere(decode, members, key)
  {
    if members.Member? { InDictionary(decode, members.rest, key); }
  }

  lemma {:induction false} NotedText(decode: Decoder, m: Metadata, members: Members)
    requires Decodes(decode, members)
    ensures var n := NotedAll(decode, m, members);
      && (n.model.Some? <==> m.model.Some? || SomeText(decode, members, "model"))
      && (n.requestId.Some? <==> m.requestId.Some? || SomeText(decode, members, "request_id"))
      && (TextAt(decode, members, "model").Some? ==> n.model == TextAt(decode, members, "model"))
      && (TextAt(decode, members, "request_id").Some? ==> n.requestId == TextAt(decode, members, "request_id"))
      && (!SomeText(decode, members, "model") ==> n.model == m.model && TextAt(decode, members, "model").None?)
      && (!SomeText(decode, members, "request_id") ==>
            n.requestId == m.requestId && TextAt(decode, members, "request_id").None?)
    decreases members
  {
    if members.Member? {
      var key := decode(members.key).value;
      NotedText(decode, Noted(decode, m, key, members.value), members.rest);
      InDictionary(decode, members.rest, key);
      DictionaryTextStep(decode, members, "model");
      DictionaryTextStep(decode, members, "request_id");
    }
  }

  lemma DictionaryTextStep(decode: Decoder, members: Members, key: string)
    requires members.Member? && Decodes(decode, members)
    ensures TextAt(decode, members, key) ==
      if NamedSomewhere(decode, members.rest, key) then TextAt(decode, members.rest, key)
      else if decode(members.key).value == key then TextOf(decode, members.value) else None
    ensures !NamedSomewhere(decode, members.rest, key) ==>
      !SomeText(decode, members.rest, key) && TextAt(decode, members.rest, key).None?
  {
    InDictionary(decode, members.rest, key);
    if !NamedSomewhere(decode, members.rest, key) {
      NoTextUnnamed(decode, members.rest, key);
    }
  }

  lemma {:induction false} NoTextUnnamed(decode: Decoder, members: Members, key: string)
    requires Decodes(decode, members) && !NamedSomewhere(decode, members, key)
    ensures !SomeText(decode, members, key)
  {
    if members.Member? { NoTextUnnamed(decode, members.rest, key); }
  }

  /** Whether the scan reports a stream: the last boolean counts. */
  lemma {:induction false} NotedStream(decode: Decoder, m: Metadata, members: Members)
    requires Decodes(decode, members)
    ensures NotedAll(decode, m, members).stream == Some(true) <==> EndsTrue(decode, members, m.stream == Some(true))
    decreases members
  {
    if members.Member? {
      NotedStream(decode, Noted(decode, m, decode(members.key).value, members.value), members.rest);
    }
  }

  /** Whether the last member named `stream` is a boolean. */
  predicate LastStreamIsBoolean(decode: Decoder, members: Members)
    requires Decodes(decode, members)
  {
    var d := Dictionary(decode, members);
    "stream" in d && (d["stream"].True? || d["stream"].False?)
  }

  lemma {:induction false} LastBooleanCounts(decode: Decoder, members: Members, so: bool)
    requires Decodes(decode, members)
    ensures LastStreamIsBoolean(decode, members) ==> (EndsTrue(decode, members, so) <==> StreamAt(decode, members))
    ensures !NamedSomewhere(decode, members, "stream") ==> EndsTrue(decode, members, so) == so && !StreamAt(decode, members)
    decreases members
  {
    InDictionary(decode, members, "stream");
    if members.Member? {
      InDictionary(decode, members.rest, "stream");
      var v := members.value;
      LastBooleanCounts(decode, members.rest,
        if decode(members.key).value != "stream" then so else if v.True? then true else if v.False? then false else so);
    }
  }

  /**
   A well-formed text is accepted if and only if its numbers fit the decoding window. The scan then gives the
   parsed model and request id exactly when, of each of the two names, the last member is a non-empty string or
   no member is one, and the parsed stream flag exactly when the last `stream` is a boolean or no `true` outlives it.
   */
  lemma ScanAgreesExactlyWhen(decode: Decoder, lead: string, inner: string, members: Members, trail: string)
    requires GoodText(lead, inner, members, trail) && Decodes(decode, members)
    ensures var r := Scan(decode, ObjectText(lead, inner, members, trail));
      && (r.Some? <==> FitsMembers(members))
      && (r.Some? ==>
            && (r.value.model == TextAt(decode, members, "model") <==>
                  TextAt(decode, members, "model").Some? || !SomeText(decode, members, "model"))
            && (r.value.requestId == TextAt(decode, members, "request_id") <==>
                  TextAt(decode, members, "request_id").Some? || !SomeText(decode, members, "request_id"))
            && ((r.value.stream == Some(true) <==> StreamAt(decode, members)) <==>
                  LastStreamIsBoolean(decode, members) || !EndsTrue(decode, members, false)))
  {
    hide GoodText, ObjectText, Scan, FitsMembers;
    ScanNotesEveryMember(decode, lead, inner, members, trail);
    NotedText(decode, NOTHING, members);
    NotedStream(decode, NOTHING, members);
    LastBooleanCounts(decode, members, false);
  }

  lemma {:induction false} DistinctAgree(decode: Decoder, members: Members, key: string)
    requires Decodes(decode, members) && DistinctNames(decode, members)
    ensures SomeText(decode, members, key) ==> TextAt(decode, members, key).Some?
    ensures EndsTrue(decode, members, false) ==> StreamAt(decode, members)
    decreases members
  {
    if members.Member? {
      DistinctAgree(decode, members.rest, key);
      DictionaryTextStep(decode, members, key);
      InDictionary(decode, members.rest, "stream");
      LastBooleanCounts(decode, members.rest, true);
      LastBooleanCounts(decode, members.rest, false);
    }
  }

  /** In particular, with distinct names the scan gives what parsing gives. */
  lemma ScanGivesWhatParsingGives(decode: Decoder, lead: string, inner: string, members: Members, trail: string)
    requires GoodText(lead, inner, members, trail) && Decodes(decode, members) && DistinctNames(decode, members)
    ensures var r := Scan(decode, ObjectText(lead, inner, members, trail));
      && (r.Some? <==> FitsMembers(members))
      && (r.Some? ==>
            && r.value.model == TextAt(decode, members, "model")
            && r.value.requestId == TextAt(decode, members, "request_id")
            && (r.value.stream == Some(true) <==> StreamAt(decode, members)))
  {
    ScanAgreesExactlyWhen(decode, lead, inner, members, trail);
    DistinctAgree(decode, members, "model");
    DistinctAgree(decode, members, "request_id");
    hide GoodText, ObjectText, Scan;
  }

  /** A repeated name can make them differ: `{"model":"a","model":null}`. */
  lemma RepeatedNameDiffers(decode: Decoder)
    requires decode("model") == Some("model") && decode("a") == Some("a")
    ensures var members := Member("", "model", "", "", Value.Text("a"), "", Member("", "model", "", "", Null, "", NoMembers));
      && Decodes(decode, members)
      && Scan(decode, ObjectText("", "", members, "")) == Some(Metadata(Some("a"), None, None))
      && TextAt(decode, members, "model") == None
  {
    var second := Member("", "model", "", "", Null, "", NoMembers);
    var members := Member("", "model", "", "", Value.Text("a"), "", second);
    RepeatedNameGood(members, second);
    hide Scan, ObjectText, GoodMembers;
    assert Decodes(decode, second) && FitsMembers(second);
    ScanNotesEveryMember(decode, "", "", members, "");
    assert Noted(decode, NOTHING, "model", members.value) == Metadata(Some("a"), None, None);
  }

  lemma RepeatedNameGood(members: Members, second: Members)
    requires second == Member("", "model", "", "", Null, "", NoMembers)
    requires members == Member("", "model", "", "", Value.Text("a"), "", second)
    ensures GoodMembers(members)
  {
    assert GoodRaw("model") by { assert GoodRaw("odel") by { assert GoodRaw("del") by { assert GoodRaw("el"); } } }
    assert GoodRaw("a");
    assert GoodMembers(second);
  }
}

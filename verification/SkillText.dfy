/**
 The flat grammar of chat texts with skill tokens: escaping, parsing, serializing.

 A chat text may hold skill tokens, which begin with an unescaped brace. A text
 typed in a native client is plain, so it is escaped when it is imported. The
 parser inverts the serializer exactly on the segment lists in normal form.
 */
module SkillText {
  import opened Wrappers

  function EscapeChar(c: char): string {
    if c == '\\' then ['\\', '\\'] else if c == '{' then ['\\', '{'] else [c]
  }

  function Escape(text: string): string {
    if text == [] then [] else EscapeChar(text[0]) + Escape(text[1..])
  }

  predicate IsEscape(raw: string) {
    |raw| > 1 && raw[0] == '\\' && (raw[1] == '\\' || raw[1] == '{')
  }

  function Unescape(raw: string): string {
    if raw == [] then []
    else if IsEscape(raw) then [raw[1]] + Unescape(raw[2..])
    else [raw[0]] + Unescape(raw[1..])
  }

  // A scan for tokens meets a brace that is not escaped.
  predicate OpensToken(raw: string) {
    raw != []
    && if IsEscape(raw) then OpensToken(raw[2..]) else raw[0] == '{' || OpensToken(raw[1..])
  }

  // ----- The program -----

  method EscapeSkillText(text: string) returns (out: string)
    ensures out == Escape(text)
  {
    out := [];
    for i := 0 to |text|
      invariant out + Escape(text[i..]) == Escape(text)
    {
      var c := text[i];
      assert text[i..][1..] == text[i + 1..];
      assert out + (EscapeChar(c) + Escape(text[i + 1..])) == (out + EscapeChar(c)) + Escape(text[i + 1..]);
      out := out + if c == '\\' then ['\\', '\\'] else if c == '{' then ['\\', '{'] else [c];
    }
    assert out + [] == out;
  }

  lemma UnescapeStep(raw: string, i: nat)
    requires i < |raw|
    ensures IsEscape(raw[i..]) ==>
              i + 1 < |raw| && Unescape(raw[i..]) == [raw[i + 1]] + Unescape(raw[i + 2..])
    ensures !IsEscape(raw[i..]) ==> Unescape(raw[i..]) == [raw[i]] + Unescape(raw[i + 1..])
  {
    var rest := raw[i..];
    assert rest[1..] == raw[i + 1..];
    if IsEscape(rest) {
      assert rest[2..] == raw[i + 2..];
    }
  }

  method UnescapeSkillText(raw: string) returns (out: string)
    ensures out == Unescape(raw)
  {
    if '\\' !in raw {
      NothingEscaped(raw);
      return raw;
    }
    hide IsEscape, Unescape;
    out := [];
    var i := 0;
    assert raw[0..] == raw;
    while i < |raw|
      invariant 0 <= i <= |raw|
      invariant out + Unescape(raw[i..]) == Unescape(raw)
    {
      UnescapeStep(raw, i);
      if IsEscape(raw[i..]) {
        assert out + ([raw[i + 1]] + Unescape(raw[i + 2..])) == (out + [raw[i + 1]]) + Unescape(raw[i + 2..]);
        out, i := out + [raw[i + 1]], i + 2;
      } else {
        assert out + ([raw[i]] + Unescape(raw[i + 1..])) == (out + [raw[i]]) + Unescape(raw[i + 1..]);
        out, i := out + [raw[i]], i + 1;
      }
    }
    assert raw[|raw|..] == [];
    NothingEscaped([]);
    assert out + [] == out;
  }

  lemma {:induction false} NothingEscaped(raw: string)
    requires '\\' !in raw
    ensures Unescape(raw) == raw
  {
    if raw != [] {
      NothingEscaped(raw[1..]);
    }
  }

  // ----- Main results -----

  // An imported text reads as what was typed, and never holds a token.
  lemma {:induction false} EscapeRoundTrip(text: string)
    ensures Unescape(Escape(text)) == text && !OpensToken(Escape(text))
  {
    if text != [] {
      EscapeRoundTrip(text[1..]);
      var raw := Escape(text);
      var rest := Escape(text[1..]);
      if text[0] == '\\' || text[0] == '{' {
        assert IsEscape(raw) && raw[2..] == rest;
      } else {
        assert raw[1..] == rest;
      }
    }
  }

  // ----- Segments -----

  datatype Segment = Text(text: string) | Token(name: string, args: string)

  function EscapeArgChar(c: char): string {
    if c == '}' then ['\\', '}'] else EscapeChar(c)
  }

  function EscapeArgs(args: string): string {
    if args == [] then [] else EscapeArgChar(args[0]) + EscapeArgs(args[1..])
  }

  function SegmentText(s: Segment): string {
    match s
    case Text(text) => Escape(text)
    case Token(name, args) =>
      if args == [] then ['{', '/'] + name + ['}'] else ['{', '/'] + name + [' '] + EscapeArgs(args) + ['}']
  }

  function Serialize(segments: seq<Segment>): string {
    if segments == [] then [] else SegmentText(segments[0]) + Serialize(segments[1..])
  }

  // The characters before the first blank or closing brace.
  function NameLength(raw: string): (n: nat)
    ensures n <= |raw|
    ensures forall i :: 0 <= i < n ==> raw[i] != ' ' && raw[i] != '}'
  {
    if raw == [] || raw[0] == ' ' || raw[0] == '}' then 0 else 1 + NameLength(raw[1..])
  }

  predicate IsArgEscape(raw: string) {
    |raw| > 1 && raw[0] == '\\' && (raw[1] == '\\' || raw[1] == '{' || raw[1] == '}')
  }

  // What was read before the rest of the arguments is put in front of it.
  function ArgsAfter(read: string, taken: nat, rest: Option<(string, nat)>): Option<(string, nat)> {
    match rest
    case None => None
    case Some(r) => Some((read + r.0, taken + r.1))
  }

  // Arguments up to their closing brace, and the characters they take with it.
  function ArgsAt(raw: string): (r: Option<(string, nat)>)
    ensures r.Some? ==> 0 < r.value.1 <= |raw|
  {
    if raw == [] then None
    else if IsArgEscape(raw) then ArgsAfter([raw[1]], 2, ArgsAt(raw[2..]))
    else if raw[0] == '}' then Some(([], 1))
    else ArgsAfter([raw[0]], 1, ArgsAt(raw[1..]))
  }

  // A token at the beginning, and the characters it takes.
  function TokenAt(raw: string): (r: Option<(Segment, nat)>)
    ensures r.Some? ==> 2 < r.value.1 <= |raw| && IsSegment(r.value.0) && r.value.0.Token?
  {
    if !(['{', '/'] <= raw) then None
    else
      var n := NameLength(raw[2..]);
      var name := raw[2..][..n];
      if n + 2 == |raw| then None
      else if raw[n + 2] == '}' then Some((Token(name, []), n + 3))
      else
        match ArgsAt(raw[n + 3..])
        case None => None
        case Some(args) => Some((Token(name, args.0), n + 3 + args.1))
  }

  function Flush(buf: string): seq<Segment> {
    if buf == [] then [] else [Text(buf)]
  }

  // The segments of the rest of a text, after the pending plain characters `buf`.
  function Parse(raw: string, buf: string): seq<Segment>
    decreases |raw|
  {
    if raw == [] then Flush(buf)
    else if IsEscape(raw) then Parse(raw[2..], buf + [raw[1]])
    else
      match TokenAt(raw)
      case Some(token) => Flush(buf) + [token.0] + Parse(raw[token.1..], [])
      case None => Parse(raw[1..], buf + [raw[0]])
  }

  // Texts are not empty, names end at no blank or brace.
  predicate IsSegment(s: Segment) {
    if s.Text? then s.text != [] else ' ' !in s.name && '}' !in s.name
  }

  // ... and no text follows a text.
  ghost predicate Normal(segments: seq<Segment>) {
    && (forall i :: 0 <= i < |segments| ==> IsSegment(segments[i]))
    && (forall i :: 0 < i < |segments| && segments[i].Text? ==> segments[i - 1].Token?)
  }

  // ----- The program on segments -----

  lemma EscapeArgsStep(args: string, i: nat)
    requires i < |args|
    ensures EscapeArgs(args[i..]) == EscapeArgChar(args[i]) + EscapeArgs(args[i + 1..])
  {
    assert args[i..][1..] == args[i + 1..];
  }

  method EscapeSkillArgs(args: string) returns (out: string)
    ensures out == EscapeArgs(args)
  {
    hide EscapeArgs;
    out := [];
    assert args[0..] == args;
    for i := 0 to |args|
      invariant out + EscapeArgs(args[i..]) == EscapeArgs(args)
    {
      EscapeArgsStep(args, i);
      var c := args[i];
      var shown := if c == '\\' then ['\\', '\\'] else if c == '{' then ['\\', '{']
                   else if c == '}' then ['\\', '}'] else [c];
      assert out + (shown + EscapeArgs(args[i + 1..])) == (out + shown) + EscapeArgs(args[i + 1..]);
      out := out + shown;
    }
    assert args[|args|..] == [];
    NothingToEscape();
    assert out + [] == out;
  }

  lemma NothingToEscape()
    ensures EscapeArgs([]) == [] && Serialize([]) == []
  {
  }

  lemma SerializeStep(segments: seq<Segment>, i: nat)
    requires i < |segments|
    ensures Serialize(segments[i..]) == SegmentText(segments[i]) + Serialize(segments[i + 1..])
  {
    assert segments[i..][1..] == segments[i + 1..];
  }

  method SerializeSkillSegments(segments: seq<Segment>) returns (out: string)
    ensures out == Serialize(segments)
  {
    hide Serialize, Escape, EscapeArgs;
    out := [];
    assert segments[0..] == segments;
    for i := 0 to |segments|
      invariant out + Serialize(segments[i..]) == Serialize(segments)
    {
      SerializeStep(segments, i);
      var piece;
      match segments[i] {
        case Text(text) =>
          piece := EscapeSkillText(text);
        case Token(name, args) =>
          if args == [] {
            piece := ['{', '/'] + name + ['}'];
          } else {
            var shown := EscapeSkillArgs(args);
            piece := ['{', '/'] + name + [' '] + shown + ['}'];
          }
      }
      assert out + (piece + Serialize(segments[i + 1..])) == (out + piece) + Serialize(segments[i + 1..]);
      out := out + piece;
    }
    assert segments[|segments|..] == [];
    NothingToEscape();
    assert out + [] == out;
  }

  method ScanName(input: string, start: nat) returns (j: nat)
    requires start <= |input|
    ensures j == start + NameLength(input[start..])
  {
    j := start;
    while j < |input| && input[j] != ' ' && input[j] != '}'
      invariant start <= j <= |input| && j + NameLength(input[j..]) == start + NameLength(input[start..])
    {
      assert input[j..][1..] == input[j + 1..];
      j := j + 1;
    }
  }

  // What the scan has read of the arguments, with what is left, is all of them.
  ghost predicate ArgsRead(input: string, start: nat, j: nat, args: string)
    requires start <= j <= |input|
  {
    ArgsAt(input[start..]) == ArgsAfter(args, j - start, ArgsAt(input[j..]))
  }

  lemma ArgsUnfold(input: string, j: nat)
    requires j < |input|
    ensures var raw := input[j..];
            && (IsArgEscape(raw) ==> ArgsAt(raw) == ArgsAfter([input[j + 1]], 2, ArgsAt(input[j + 2..])))
            && (!IsArgEscape(raw) && input[j] == '}' ==> ArgsAt(raw) == Some(([], 1)))
            && (!IsArgEscape(raw) && input[j] != '}' ==>
                  ArgsAt(raw) == ArgsAfter([input[j]], 1, ArgsAt(input[j + 1..])))
  {
    var raw := input[j..];
    assert raw[1..] == input[j + 1..];
    if IsArgEscape(raw) {
      assert raw[2..] == input[j + 2..];
    }
  }

  lemma ArgsStep(input: string, start: nat, j: nat, args: string)
    requires start <= j < |input| && ArgsRead(input, start, j, args)
    ensures IsArgEscape(input[j..]) ==> ArgsRead(input, start, j + 2, args + [input[j + 1]])
    ensures !IsArgEscape(input[j..]) && input[j] == '}' ==> ArgsAt(input[start..]) == Some((args, j - start + 1))
    ensures !IsArgEscape(input[j..]) && input[j] != '}' ==> ArgsRead(input, start, j + 1, args + [input[j]])
  {
    hide ArgsAt;
    ArgsUnfold(input, j);
    assert args + [] == args;
    if IsArgEscape(input[j..]) {
      var r := ArgsAt(input[j + 2..]);
      assert r.Some? ==> args + ([input[j + 1]] + r.value.0) == (args + [input[j + 1]]) + r.value.0;
    } else {
      var r := ArgsAt(input[j + 1..]);
      assert r.Some? ==> args + ([input[j]] + r.value.0) == (args + [input[j]]) + r.value.0;
    }
  }

  // The token at `start`, where the input has an opening brace and a slash, and the
  // position after it.
  method TryParseToken(input: string, start: nat) returns (r: Option<(Segment, nat)>)
    requires start + 1 < |input| && input[start] == '{' && input[start + 1] == '/'
    ensures r == if TokenAt(input[start..]).Some? then
                   Some((TokenAt(input[start..]).value.0, start + TokenAt(input[start..]).value.1))
                 else None
  {
    hide ArgsAt, NameLength;
    var j := ScanName(input, start + 2);
    TokenScanned(input, start, j);
    if j >= |input| {
      return None;
    }
    var name := input[start + 2..j];
    if input[j] == '}' {
      return Some((Token(name, []), j + 1));
    }
    j := j + 1;
    ghost var first := j;
    var args := [];
    ArgsStart(input, j);
    while j < |input|
      invariant first <= j <= |input| && ArgsRead(input, first, j, args)
    {
      ArgsStep(input, first, j, args);
      if IsArgEscape(input[j..]) {
        args, j := args + [input[j + 1]], j + 2;
        continue;
      }
      if input[j] == '}' {
        return Some((Token(name, args), j + 1));
      }
      args, j := args + [input[j]], j + 1;
    }
    ArgsEnd(input[j..]);
    return None;
  }

  // The parts of a token, in place.
  lemma TokenScanned(input: string, start: nat, j: nat)
    requires start + 1 < |input| && input[start] == '{' && input[start + 1] == '/'
    requires j == start + 2 + NameLength(input[start + 2..])
    ensures start + 2 <= j <= |input|
    ensures TokenAt(input[start..]) ==
            if j == |input| then None
            else if input[j] == '}' then Some((Token(input[start + 2..j], []), j + 1 - start))
            else if ArgsAt(input[j + 1..]).None? then None
            else Some((Token(input[start + 2..j], ArgsAt(input[j + 1..]).value.0),
                       j + 1 - start + ArgsAt(input[j + 1..]).value.1))
  {
    hide ArgsAt, NameLength;
    var raw := input[start..];
    assert raw[0] == '{' && raw[1] == '/' && raw[2..] == input[start + 2..];
    var n := NameLength(raw[2..]);
    assert raw[2..][..n] == input[start + 2..j];
    if j < |input| {
      assert raw[n + 2] == input[j] && raw[n + 3..] == input[j + 1..];
    }
  }

  lemma ArgsStart(input: string, start: nat)
    requires start <= |input|
    ensures ArgsRead(input, start, start, [])
  {
    hide ArgsAt;
    var r := ArgsAt(input[start..]);
    assert r.Some? ==> [] + r.value.0 == r.value.0;
  }

  lemma ArgsEnd(raw: string)
    requires raw == []
    ensures ArgsAt(raw) == None
  {
  }

  // One step of the parser at position i.
  lemma ParseStep(input: string, i: nat, buf: string)
    requires i < |input|
    ensures var raw := input[i..];
            && (IsEscape(raw) ==> Parse(raw, buf) == Parse(input[i + 2..], buf + [input[i + 1]]))
            && (!IsEscape(raw) && TokenAt(raw).Some? ==>
                  var token := TokenAt(raw).value;
                  Parse(raw, buf) == Flush(buf) + [token.0] + Parse(input[i + token.1..], []))
            && (!IsEscape(raw) && TokenAt(raw).None? ==> Parse(raw, buf) == Parse(input[i + 1..], buf + [input[i]]))
  {
    hide TokenAt;
    var raw := input[i..];
    assert raw[1..] == input[i + 1..];
    if IsEscape(raw) {
      assert raw[2..] == input[i + 2..];
    } else if TokenAt(raw).Some? {
      assert raw[TokenAt(raw).value.1..] == input[i + TokenAt(raw).value.1..];
    }
  }

  lemma ParseEnd(buf: string)
    ensures Parse([], buf) == Flush(buf)
  {
  }

  lemma NoTokenHere(input: string, i: nat)
    requires i < |input| && !(i + 1 < |input| && input[i] == '{' && input[i + 1] == '/')
    ensures TokenAt(input[i..]) == None
  {
    hide NameLength, ArgsAt;
  }

  method ParseSkillSegments(input: string) returns (segments: seq<Segment>)
    ensures segments == Parse(input, [])
  {
    hide TokenAt, Parse;
    segments := [];
    var buf, i := [], 0;
    assert input[0..] == input;
    while i < |input|
      invariant 0 <= i <= |input|
      invariant segments + Parse(input[i..], buf) == Parse(input, [])
      decreases |input| - i
    {
      ParseStep(input, i, buf);
      if IsEscape(input[i..]) {
        buf, i := buf + [input[i + 1]], i + 2;
        continue;
      }
      var token: Option<(Segment, nat)> := None;
      if i + 1 < |input| && input[i] == '{' && input[i + 1] == '/' {
        token := TryParseToken(input, i);
      } else {
        NoTokenHere(input, i);
      }
      if token.Some? {
        ghost var rest := Parse(input[token.value.1..], []);
        assert segments + (Flush(buf) + [token.value.0] + rest) == (segments + Flush(buf) + [token.value.0]) + rest;
        segments := segments + Flush(buf) + [token.value.0];
        buf, i := [], token.value.1;
        continue;
      }
      buf, i := buf + [input[i]], i + 1;
    }
    assert input[i..] == [];
    ParseEnd(buf);
    segments := segments + Flush(buf);
  }

  // ----- Round trips -----

  lemma NormalJoin(buf: string, token: Segment, rest: seq<Segment>)
    requires token.Token? && IsSegment(token) && Normal(rest)
    ensures Normal(Flush(buf) + [token] + rest)
  {
  }

  // Whatever is parsed is in normal form.
  lemma {:induction false} ParseIsNormal(raw: string, buf: string)
    ensures Normal(Parse(raw, buf))
    decreases |raw|
  {
    hide TokenAt, Normal;
    if raw == [] {
      assert Normal(Flush(buf)) by {
        FlushIsNormal(buf);
      }
    } else if IsEscape(raw) {
      ParseIsNormal(raw[2..], buf + [raw[1]]);
    } else if TokenAt(raw).Some? {
      var token := TokenAt(raw).value;
      ParseIsNormal(raw[token.1..], []);
      NormalJoin(buf, token.0, Parse(raw[token.1..], []));
    } else {
      ParseIsNormal(raw[1..], buf + [raw[0]]);
    }
  }

  lemma FlushIsNormal(buf: string)
    ensures Normal(Flush(buf))
  {
  }

  lemma ParseEscapedChar(c: char, rest: string, buf: string)
    ensures Parse(EscapeChar(c) + rest, buf) == Parse(rest, buf + [c])
  {
    hide NameLength, ArgsAt;
    var raw := EscapeChar(c) + rest;
    if c == '\\' || c == '{' {
      assert IsEscape(raw) && raw[2..] == rest && raw[1] == c;
    } else {
      assert raw[0] == c && raw[1..] == rest && !IsEscape(raw) && TokenAt(raw).None?;
    }
  }

  // An escaped text adds itself to the pending characters, whatever follows it.
  lemma {:induction false} ParseEscaped(text: string, rest: string, buf: string)
    ensures Parse(Escape(text) + rest, buf) == Parse(rest, buf + text)
  {
    hide Parse, EscapeChar;
    if text == [] {
      assert Escape(text) + rest == rest && buf + text == buf;
    } else {
      var tail := Escape(text[1..]) + rest;
      assert Escape(text) + rest == EscapeChar(text[0]) + tail;
      ParseEscapedChar(text[0], tail, buf);
      ParseEscaped(text[1..], rest, buf + [text[0]]);
      assert (buf + [text[0]]) + text[1..] == buf + text;
    }
  }

  lemma {:induction false} NameEnds(name: string, rest: string)
    requires ' ' !in name && '}' !in name && rest != [] && (rest[0] == ' ' || rest[0] == '}')
    ensures NameLength(name + rest) == |name|
  {
    if name == [] {
      assert name + rest == rest;
    } else {
      assert (name + rest)[1..] == name[1..] + rest;
      NameEnds(name[1..], rest);
    }
  }

  lemma ArgsEscapedChar(c: char, rest: string)
    ensures ArgsAt(EscapeArgChar(c) + rest) == ArgsAfter([c], |EscapeArgChar(c)|, ArgsAt(rest))
  {
    var raw := EscapeArgChar(c) + rest;
    if c == '\\' || c == '{' || c == '}' {
      assert IsArgEscape(raw) && raw[2..] == rest && raw[1] == c;
    } else {
      assert raw[0] == c && raw[1..] == rest && !IsArgEscape(raw);
    }
  }

  lemma {:induction false} ArgsEscaped(args: string, rest: string)
    ensures ArgsAt(EscapeArgs(args) + (['}'] + rest)) == Some((args, |EscapeArgs(args)| + 1))
  {
    hide EscapeArgChar;
    var raw := EscapeArgs(args) + (['}'] + rest);
    if args == [] {
      assert raw == ['}'] + rest;
    } else {
      var tail := EscapeArgs(args[1..]) + (['}'] + rest);
      ArgsEscaped(args[1..], rest);
      assert raw == EscapeArgChar(args[0]) + tail;
      ArgsEscapedChar(args[0], tail);
      assert [args[0]] + args[1..] == args;
    }
  }

  lemma TokenParts(raw: string, name: string, after: string)
    requires raw == ['{', '/'] + name + after && after != []
    ensures raw[0] == '{' && raw[1] == '/' && raw[0..] == raw && raw[2..] == name + after
    ensures var end := |name| + 2; raw[2..end] == name && raw[end] == after[0] && raw[end + 1..] == after[1..]
  {
  }

  // What follows the name of a serialized token.
  function AfterName(args: string, rest: string): string {
    if args == [] then ['}'] + rest else [' '] + (EscapeArgs(args) + (['}'] + rest))
  }

  lemma TokenText(token: Segment, rest: string)
    requires token.Token?
    ensures var after := AfterName(token.args, rest);
            && SegmentText(token) + rest == ['{', '/'] + token.name + after
            && |SegmentText(token)| + |rest| == 2 + |token.name| + |after|
  {
    hide EscapeArgs;
  }

  lemma TokenSerialized(token: Segment, rest: string)
    requires token.Token? && IsSegment(token)
    ensures TokenAt(SegmentText(token) + rest) == Some((token, |SegmentText(token)|))
  {
    hide TokenAt, NameLength, ArgsAt, EscapeArgs, SegmentText;
    var raw, name, after := SegmentText(token) + rest, token.name, AfterName(token.args, rest);
    TokenText(token, rest);
    TokenParts(raw, name, after);
    NameEnds(name, after);
    TokenScanned(raw, 0, |name| + 2);
    if token.args != [] {
      ArgsEscaped(token.args, rest);
      assert after[1..] == EscapeArgs(token.args) + (['}'] + rest);
    }
  }

  lemma ParseToken(token: Segment, rest: string, buf: string)
    requires token.Token? && IsSegment(token)
    ensures Parse(SegmentText(token) + rest, buf) == Flush(buf) + [token] + Parse(rest, [])
  {
    hide TokenAt;
    var raw := SegmentText(token) + rest;
    TokenSerialized(token, rest);
    assert raw[0] == '{' && !IsEscape(raw);
    assert raw[|SegmentText(token)|..] == rest;
  }

  lemma {:induction false} ParseSerialized(segments: seq<Segment>, buf: string)
    requires Normal(segments) && (buf == [] || segments == [] || segments[0].Token?)
    ensures Parse(Serialize(segments), buf) == Flush(buf) + segments
    decreases |segments|
  {
    hide Parse, SegmentText, IsSegment;
    if segments == [] {
      ParseEnd(buf);
      assert Flush(buf) + segments == Flush(buf);
    } else {
      var first, tail := segments[0], segments[1..];
      TailIsNormal(segments);
      if first.Token? {
        ParseToken(first, Serialize(tail), buf);
        ParseSerialized(tail, []);
        assert Flush(buf) + [first] + (Flush([]) + tail) == Flush(buf) + segments;
      } else {
        ParseText(first, Serialize(tail));
        ParseSerialized(tail, first.text);
        assert Flush(first.text) + tail == segments;
      }
    }
  }

  lemma ParseText(s: Segment, rest: string)
    requires s.Text? && IsSegment(s)
    ensures Parse(SegmentText(s) + rest, []) == Parse(rest, s.text) && Flush(s.text) == [s]
  {
    hide Parse;
    ParseEscaped(s.text, rest, []);
    assert [] + s.text == s.text;
  }

  lemma TailIsNormal(segments: seq<Segment>)
    requires segments != [] && Normal(segments)
    ensures IsSegment(segments[0]) && Normal(segments[1..])
    ensures segments[0].Text? && segments[1..] != [] ==> segments[1].Token?
  {
  }

  // Main result. Parsing inverts serializing exactly on the segment lists in normal form.
  lemma ParseInvertsSerializeIff(segments: seq<Segment>)
    ensures Parse(Serialize(segments), []) == segments <==> Normal(segments)
  {
    hide Parse, Serialize, Normal;
    if Normal(segments) {
      ParseSerialized(segments, []);
      assert Flush([]) + segments == segments;
    } else {
      ParseIsNormal(Serialize(segments), []);
    }
  }

  ghost predicate HasToken(segments: seq<Segment>) {
    exists i :: 0 <= i < |segments| && segments[i].Token?
  }

  // A text parses as the one text it unescapes to exactly when no token is found in it.
  lemma {:induction false} UnescapeIsParse(raw: string, buf: string)
    ensures Parse(raw, buf) == Flush(buf + Unescape(raw)) <==> !HasToken(Parse(raw, buf))
    decreases |raw|
  {
    hide TokenAt, HasToken, Flush;
    FlushHasNoToken(buf + Unescape(raw));
    if raw == [] {
      assert buf + Unescape(raw) == buf;
    } else if IsEscape(raw) {
      UnescapeIsParse(raw[2..], buf + [raw[1]]);
      assert (buf + [raw[1]]) + Unescape(raw[2..]) == buf + Unescape(raw);
    } else if TokenAt(raw).Some? {
      var token := TokenAt(raw).value;
      TokenIsFound(Flush(buf), token.0, Parse(raw[token.1..], []));
    } else {
      UnescapeIsParse(raw[1..], buf + [raw[0]]);
      assert (buf + [raw[0]]) + Unescape(raw[1..]) == buf + Unescape(raw);
    }
  }

  lemma FlushHasNoToken(buf: string)
    ensures !HasToken(Flush(buf))
  {
  }

  lemma TokenIsFound(before: seq<Segment>, token: Segment, rest: seq<Segment>)
    requires token.Token?
    ensures HasToken(before + [token] + rest)
  {
    assert (before + [token] + rest)[|before|] == token;
  }

  // Writing a parsed text back keeps its segments, however it was escaped.
  lemma RewrittenTextParsesAlike(raw: string)
    ensures Parse(Serialize(Parse(raw, [])), []) == Parse(raw, [])
  {
    ParseIsNormal(raw, []);
    ParseInvertsSerializeIff(Parse(raw, []));
  }

  // An imported text is parsed as that text alone.
  lemma ImportedTextHasNoToken(text: string)
    ensures Parse(Escape(text), []) == Flush(text)
  {
    hide Parse;
    ParseEscaped(text, [], []);
    ParseEnd(text);
    assert Escape(text) + [] == Escape(text) && [] + text == text;
  }
}

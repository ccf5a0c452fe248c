/** Pre-injected widget data: JSON text made safe inside a script element and put into a template. */
module InjectData {
  import opened Wrappers

  const PLACEHOLDER := "\"__INJECTED_DATA__\""
  const CLOSE := "</"
  const COMMENT := "<!--"
  const LINE_SEPARATOR: char := '\U{2028}'
  const PARAGRAPH_SEPARATOR: char := '\U{2029}'

  predicate StartsWith(s: string, p: string) {
    |p| <= |s| && s[..|p|] == p
  }

  // strings.ReplaceAll for a non-empty pattern: leftmost first, without overlap.
  function ReplaceAll(s: string, pattern: string, with: string): string
    requires pattern != ""
  {
    if s == "" then ""
    else if StartsWith(s, pattern) then with + ReplaceAll(s[|pattern|..], pattern, with)
    else [s[0]] + ReplaceAll(s[1..], pattern, with)
  }

  function NoClose(s: string): string { ReplaceAll(s, CLOSE, "<\\/") }

  function NoComment(s: string): string { ReplaceAll(s, COMMENT, "<\\!--") }

  function NoLine(s: string): string { ReplaceAll(s, [LINE_SEPARATOR], "\\u2028") }

  function NoParagraph(s: string): string { ReplaceAll(s, [PARAGRAPH_SEPARATOR], "\\u2029") }

  // The four replacements, in the order the code makes them.
  function EscapeChain(json: string): string {
    NoParagraph(NoLine(NoComment(NoClose(json))))
  }

  // ----- The chain is one pass -----

  predicate OpensClose(s: string) { |s| >= 2 && s[0] == '<' && s[1] == '/' }

  predicate OpensComment(s: string) {
    |s| >= 4 && s[0] == '<' && s[1] == '!' && s[2] == '-' && s[3] == '-'
  }

  // The same escaping read off the input from left to right.
  function Escape(s: string): string {
    if s == "" then ""
    else if OpensClose(s) then "<\\/" + Escape(s[2..])
    else if OpensComment(s) then "<\\!--" + Escape(s[4..])
    else if s[0] == LINE_SEPARATOR then "\\u2028" + Escape(s[1..])
    else if s[0] == PARAGRAPH_SEPARATOR then "\\u2029" + Escape(s[1..])
    else [s[0]] + Escape(s[1..])
  }

  lemma PatternsByChar(s: string)
    ensures StartsWith(s, CLOSE) <==> OpensClose(s)
    ensures StartsWith(s, COMMENT) <==> OpensComment(s)
    ensures StartsWith(s, [LINE_SEPARATOR]) <==> s != "" && s[0] == LINE_SEPARATOR
    ensures StartsWith(s, [PARAGRAPH_SEPARATOR]) <==> s != "" && s[0] == PARAGRAPH_SEPARATOR
  {
  }

  lemma StartsWithHead(s: string, pattern: string)
    requires pattern != "" && StartsWith(s, pattern)
    ensures s != "" && s[0] == pattern[0]
  {
  }

  // Text without the first character of the pattern is copied.
  lemma {:induction false} ReplaceSkips(plain: string, s: string, pattern: string, with: string)
    requires pattern != "" && pattern[0] !in plain
    ensures ReplaceAll(plain + s, pattern, with) == plain + ReplaceAll(s, pattern, with)
  {
    var all := plain + s;
    if plain == "" {
      assert all == s;
    } else {
      assert all[1..] == plain[1..] + s && all[0] == plain[0];
      ReplaceSkips(plain[1..], s, pattern, with);
      if StartsWith(all, pattern) {
        StartsWithHead(all, pattern);
      }
    }
  }

  // An occurrence at the front is replaced; another first character is copied.
  lemma ReplaceFront(s: string, pattern: string, with: string)
    requires pattern != ""
    ensures ReplaceAll(pattern + s, pattern, with) == with + ReplaceAll(s, pattern, with)
  {
  }

  lemma ReplaceCopies(c: char, s: string, pattern: string, with: string)
    requires pattern != "" && !StartsWith([c] + s, pattern)
    ensures ReplaceAll([c] + s, pattern, with) == [c] + ReplaceAll(s, pattern, with)
  {
  }

  lemma NoCloseHead(t: string)
    ensures NoClose(t) == "" <==> t == ""
    ensures t != "" ==> NoClose(t)[0] == t[0]
    ensures t != "" && t[0] != '<' ==> NoClose(t)[1..] == NoClose(t[1..])
  {
  }

  // The first replacement does not complete a comment opener.
  lemma NoCloseMakesNoComment(t: string)
    ensures OpensComment("<" + NoClose(t)) ==> OpensComment("<" + t)
  {
    var u := NoClose(t);
    NoCloseHead(t);
    if OpensComment("<" + u) {
      assert u[0] == ("<" + u)[1] && u[1] == ("<" + u)[2] && u[2] == ("<" + u)[3];
      NoCloseHead(t[1..]);
      NoCloseHead(t[2..]);
    }
  }

  lemma ChainClose(t: string)
    ensures EscapeChain("</" + t) == "<\\/" + EscapeChain(t)
  {
    hide ReplaceAll;
    var u, v := NoClose(t), NoComment(NoClose(t));
    ReplaceFront(t, CLOSE, "<\\/");
    assert "<\\/" + u == ['<'] + ("\\/" + u);
    PatternsByChar(['<'] + ("\\/" + u));
    ReplaceCopies('<', "\\/" + u, COMMENT, "<\\!--");
    ReplaceSkips("\\/", u, COMMENT, "<\\!--");
    assert NoComment("<\\/" + u) == "<\\/" + v;
    ReplaceSkips("<\\/", v, [LINE_SEPARATOR], "\\u2028");
    ReplaceSkips("<\\/", NoLine(v), [PARAGRAPH_SEPARATOR], "\\u2029");
  }

  lemma ChainComment(t: string)
    ensures EscapeChain("<!--" + t) == "<\\!--" + EscapeChain(t)
  {
    hide ReplaceAll;
    var u, v := NoClose(t), NoComment(NoClose(t));
    assert "<!--" + t == ['<'] + ("!--" + t);
    PatternsByChar(['<'] + ("!--" + t));
    ReplaceCopies('<', "!--" + t, CLOSE, "<\\/");
    ReplaceSkips("!--", t, CLOSE, "<\\/");
    assert NoClose("<!--" + t) == "<!--" + u;
    ReplaceFront(u, COMMENT, "<\\!--");
    ReplaceSkips("<\\!--", v, [LINE_SEPARATOR], "\\u2028");
    ReplaceSkips("<\\!--", NoLine(v), [PARAGRAPH_SEPARATOR], "\\u2029");
  }

  lemma ChainOther(c: char, t: string)
    requires !OpensClose([c] + t) && !OpensComment([c] + t)
    ensures EscapeChain([c] + t)
              == (if c == LINE_SEPARATOR then "\\u2028"
                  else if c == PARAGRAPH_SEPARATOR then "\\u2029" else [c]) + EscapeChain(t)
  {
    hide ReplaceAll;
    var u, v := NoClose(t), NoComment(NoClose(t));
    var w := NoLine(v);
    PatternsByChar([c] + t);
    ReplaceCopies(c, t, CLOSE, "<\\/");
    NoCloseMakesNoComment(t);
    PatternsByChar([c] + u);
    ReplaceCopies(c, u, COMMENT, "<\\!--");
    if c == LINE_SEPARATOR {
      ReplaceFront(v, [LINE_SEPARATOR], "\\u2028");
      ReplaceSkips("\\u2028", w, [PARAGRAPH_SEPARATOR], "\\u2029");
    } else {
      ReplaceSkips([c], v, [LINE_SEPARATOR], "\\u2028");
      if c == PARAGRAPH_SEPARATOR {
        ReplaceFront(w, [PARAGRAPH_SEPARATOR], "\\u2029");
      } else {
        ReplaceSkips([c], w, [PARAGRAPH_SEPARATOR], "\\u2029");
      }
    }
  }

  // No later replacement touches what an earlier one left: the chain is a single pass.
  lemma {:induction false} ChainIsOnePass(s: string)
    ensures EscapeChain(s) == Escape(s)
  {
    hide EscapeChain;
    if s == "" {
      ChainOfNothing();
    } else if OpensClose(s) {
      ChainIsOnePass(s[2..]);
      assert s == "</" + s[2..];
      ChainClose(s[2..]);
    } else if OpensComment(s) {
      ChainIsOnePass(s[4..]);
      assert s == "<!--" + s[4..];
      ChainComment(s[4..]);
    } else {
      ChainIsOnePass(s[1..]);
      assert s == [s[0]] + s[1..];
      ChainOther(s[0], s[1..]);
    }
  }

  lemma ChainOfNothing()
    ensures EscapeChain("") == ""
  {
  }

  // ----- What is gone -----

  predicate CloseAt(s: string, i: int) {
    0 <= i && i + 2 <= |s| && s[i] == '<' && s[i + 1] == '/'
  }

  predicate CommentAt(s: string, i: int) {
    0 <= i && i + 4 <= |s| && s[i] == '<' && s[i + 1] == '!' && s[i + 2] == '-' && s[i + 3] == '-'
  }

  // Where a browser would leave the script element or open a comment.
  predicate Opener(s: string, i: int) { CloseAt(s, i) || CommentAt(s, i) }

  ghost predicate LineBreak(c: char) { c == LINE_SEPARATOR || c == PARAGRAPH_SEPARATOR }

  // Nothing in the text ends the script element, opens a comment or breaks the line.
  ghost predicate Harmless(s: string) {
    forall i :: 0 <= i < |s| ==> !Opener(s, i) && !LineBreak(s[i])
  }

  lemma EscapeHead(s: string)
    ensures |Escape(s)| >= |s| && (s != "" ==> |Escape(s)| > 0)
    ensures s != "" && s[0] !in {LINE_SEPARATOR, PARAGRAPH_SEPARATOR} ==> Escape(s)[0] == s[0]
    ensures s != "" && s[0] in {LINE_SEPARATOR, PARAGRAPH_SEPARATOR} ==> Escape(s)[0] == '\\'
    ensures s != "" && s[0] !in {'<', LINE_SEPARATOR, PARAGRAPH_SEPARATOR} ==> Escape(s)[1..] == Escape(s[1..])
  {
  }

  lemma HarmlessJoin(a: string, b: string)
    requires Harmless(b)
    requires forall i :: 0 <= i < |a| ==> !Opener(a + b, i) && !LineBreak(a[i])
    ensures Harmless(a + b)
  {
  }

  lemma HarmlessClose(u: string)
    requires Harmless(u)
    ensures Harmless("<\\/" + u)
  {
  }

  lemma HarmlessComment(u: string)
    requires Harmless(u)
    ensures Harmless("<\\!--" + u)
  {
  }

  lemma HarmlessSeparators(u: string)
    requires Harmless(u)
    ensures Harmless("\\u2028" + u) && Harmless("\\u2029" + u)
  {
  }

  lemma HarmlessChar(c: char, t: string)
    requires Harmless(Escape(t)) && c != LINE_SEPARATOR && c != PARAGRAPH_SEPARATOR
    requires !OpensClose([c] + t) && !OpensComment([c] + t)
    ensures Harmless([c] + Escape(t))
  {
    hide Escape;
    EscapeOpensNothing(t);
    HarmlessJoin([c], Escape(t));
  }

  lemma {:induction false} EscapeIsHarmless(s: string)
    ensures Harmless(Escape(s))
  {
    hide Harmless;
    if s == "" {
      HarmlessNothing();
    } else if OpensClose(s) {
      EscapeIsHarmless(s[2..]);
      HarmlessClose(Escape(s[2..]));
    } else if OpensComment(s) {
      EscapeIsHarmless(s[4..]);
      HarmlessComment(Escape(s[4..]));
    } else {
      EscapeIsHarmless(s[1..]);
      if s[0] == LINE_SEPARATOR || s[0] == PARAGRAPH_SEPARATOR {
        HarmlessSeparators(Escape(s[1..]));
      } else {
        assert s == [s[0]] + s[1..];
        HarmlessChar(s[0], s[1..]);
      }
    }
  }

  lemma HarmlessNothing()
    ensures Harmless("")
  {
  }

  lemma EscapeOpensNothing(t: string)
    ensures OpensClose("<" + Escape(t)) ==> OpensClose("<" + t)
    ensures OpensComment("<" + Escape(t)) ==> OpensComment("<" + t)
  {
    EscapeHead(t);
    var u := Escape(t);
    if OpensClose("<" + u) {
      assert u[0] == ("<" + u)[1];
    }
    if OpensComment("<" + u) {
      assert u[0] == ("<" + u)[1] && u[1] == ("<" + u)[2] && u[2] == ("<" + u)[3];
      EscapeHead(t[1..]);
      EscapeHead(t[2..]);
    }
  }

  // Escaping changes exactly the texts that hold something harmful.
  lemma {:induction false} EscapeFixed(s: string)
    ensures Escape(s) == s <==> Harmless(s)
  {
    EscapeIsHarmless(s);
    if Harmless(s) && s != "" {
      assert !Opener(s, 0) && !LineBreak(s[0]);
      forall i | 0 <= i < |s[1..]| ensures !Opener(s[1..], i) && !LineBreak(s[1..][i]) {
        assert !Opener(s, i + 1) && !LineBreak(s[i + 1]);
      }
      EscapeFixed(s[1..]);
    }
  }

  // The escaped text holds none of the four patterns, whatever the input; an input without them,
  // such as the encoder's usual output, is left as it is.
  lemma EscapedIsHarmless(json: string)
    ensures Harmless(EscapeChain(json))
    ensures EscapeChain(json) == json <==> Harmless(json)
  {
    hide EscapeChain, Escape, Harmless;
    ChainIsOnePass(json);
    EscapeIsHarmless(json);
    EscapeFixed(json);
  }

  // ----- What is read back -----

  // Characters of a JSON text as a reader sees them: quotes and what stands outside strings are
  // taken as they are, a string's body is decoded to UTF-16 code units (RFC 8259 section 7).
  datatype Token = Quote | Outside(c: char) | Unit(code: int)

  predicate OutsideChar(c: char) {
    || c in {' ', '\t', '\n', '\r', '{', '}', '[', ']', ':', ',', '-', '+', '.', 'E'}
    || '0' <= c <= '9'
    || c in {'a', 'e', 'f', 'l', 'n', 'r', 's', 't', 'u'}
  }

  function HexValue(c: char): Option<int> {
    if '0' <= c <= '9' then Some(c as int - '0' as int)
    else if 'a' <= c <= 'f' then Some(c as int - 'a' as int + 10)
    else if 'A' <= c <= 'F' then Some(c as int - 'A' as int + 10)
    else None
  }

  function HexUnit(s: string): Option<int> {
    if |s| < 4 then None
    else
      match (HexValue(s[0]), HexValue(s[1]), HexValue(s[2]), HexValue(s[3]))
      case (Some(a), Some(b), Some(c), Some(d)) => Some(4096 * a + 256 * b + 16 * c + d)
      case _ => None
  }

  // A script also takes an escaped exclamation mark for the mark itself; JSON proper does not.
  function EscapedChar(c: char, script: bool): Option<int> {
    if c == '"' || c == '\\' || c == '/' then Some(c as int)
    else if c == 'b' then Some(8)
    else if c == 't' then Some(9)
    else if c == 'n' then Some(10)
    else if c == 'f' then Some(12)
    else if c == 'r' then Some(13)
    else if c == '!' && script then Some(c as int)
    else None
  }

  function Units(c: char): seq<Token> {
    var code := c as int;
    if code < 0x10000 then [Unit(code)]
    else [Unit(0xD800 + (code - 0x10000) / 0x400), Unit(0xDC00 + (code - 0x10000) % 0x400)]
  }

  function Then(tokens: seq<Token>, rest: Option<seq<Token>>): Option<seq<Token>> {
    match rest
    case Some(more) => Some(tokens + more)
    case None => None
  }

  function Read(s: string, inString: bool, script: bool): Option<seq<Token>> {
    if s == "" then
      if inString then None else Some([])
    else if s[0] == '"' then
      Then([Quote], Read(s[1..], !inString, script))
    else if !inString then
      if OutsideChar(s[0]) then Then([Outside(s[0])], Read(s[1..], false, script)) else None
    else if s[0] == '\\' then
      if |s| >= 2 && s[1] == 'u' then
        match HexUnit(s[2..])
        case Some(code) => Then([Unit(code)], Read(s[6..], true, script))
        case None => None
      else if |s| >= 2 then
        match EscapedChar(s[1], script)
        case Some(code) => Then([Unit(code)], Read(s[2..], true, script))
        case None => None
      else None
    else if s[0] < ' ' then None
    else Then(Units(s[0]), Read(s[1..], true, script))
  }

  ghost predicate Plain(c: char) {
    c != '<' && c != LINE_SEPARATOR && c != PARAGRAPH_SEPARATOR
  }

  lemma EscapePlainHead(c: char, t: string)
    requires Plain(c)
    ensures Escape([c] + t) == [c] + Escape(t)
  {
  }

  lemma {:induction false} EscapeCopies(plain: string, t: string)
    requires forall i :: 0 <= i < |plain| ==> Plain(plain[i])
    ensures Escape(plain + t) == plain + Escape(t)
  {
    hide Escape, Plain;
    if plain == "" {
      assert plain + t == t;
    } else {
      assert plain + t == [plain[0]] + (plain[1..] + t);
      EscapeCopies(plain[1..], t);
      EscapePlainHead(plain[0], plain[1..] + t);
    }
  }

  lemma HexIsPlain(s: string)
    requires HexUnit(s).Some?
    ensures |s| >= 4 && forall i :: 0 <= i < 4 ==> Plain(s[i])
  {
  }

  // A literal character, then the rest.
  lemma ReadLiteral(c: char, t: string, script: bool)
    requires c != '"' && c != '\\' && c >= ' '
    ensures Read([c] + t, true, script) == Then(Units(c), Read(t, true, script))
  {
  }

  lemma ReadEscaped(c: char, t: string, script: bool)
    requires EscapedChar(c, script).Some?
    ensures Read(['\\', c] + t, true, script)
              == Then([Unit(EscapedChar(c, script).value)], Read(t, true, script))
  {
  }

  lemma ReadUnicode(h: string, t: string, script: bool)
    requires |h| == 4 && HexUnit(h).Some?
    ensures Read("\\u" + h + t, true, script) == Then([Unit(HexUnit(h).value)], Read(t, true, script))
  {
  }

  lemma ReadSeparator(last: char, t: string, script: bool)
    requires last == '8' || last == '9'
    ensures Read("\\u202" + [last] + t, true, script)
              == Then([Unit(if last == '8' then 0x2028 else 0x2029)], Read(t, true, script))
  {
  }

  lemma ReadDashes(t: string, script: bool)
    ensures Read("--" + t, true, script) == Then(Units('-'), Then(Units('-'), Read(t, true, script)))
  {
  }

  lemma ReadComment(t: string, script: bool)
    ensures Read("<!--" + t, true, script) == Then(Units('<'), Then(Units('!'), Read("--" + t, true, script)))
    ensures Read("<\\!--" + t, true, script)
              == if script then Then(Units('<'), Then(Units('!'), Read("--" + t, true, script))) else None
  {
    var dashes := "--" + t;
    assert "<!--" + t == ['<'] + (['!'] + dashes) && "<\\!--" + t == ['<'] + (['\\', '!'] + dashes);
    ReadBang(dashes);
    hide Read;
    ReadLiteral('<', ['!'] + dashes, script);
    ReadLiteral('!', dashes, script);
    ReadLiteral('<', ['\\', '!'] + dashes, script);
    if script {
      ReadEscaped('!', dashes, script);
    }
  }

  lemma ReadBang(t: string)
    ensures Read(['\\', '!'] + t, true, false) == None
  {
  }

  predicate HasComment(s: string) {
    s != "" && (OpensComment(s) || HasComment(s[1..]))
  }

  lemma {:induction false} HasCommentSkips(plain: string, t: string)
    requires forall i :: 0 <= i < |plain| ==> plain[i] != '<'
    ensures HasComment(plain + t) == HasComment(t)
  {
    if plain == "" {
      assert plain + t == t;
    } else {
      assert (plain + t)[1..] == plain[1..] + t;
      HasCommentSkips(plain[1..], t);
    }
  }

  // Escaping keeps what is read, except that a strict reader rejects an escaped comment opener.
  ghost predicate Keeps(s: string, inString: bool, script: bool) {
    Read(Escape(s), inString, script)
    == if script || !HasComment(s) then Read(s, inString, script) else None
  }

  lemma KeepsClose(t: string, script: bool)
    requires Keeps(t, true, script)
    ensures Keeps("</" + t, true, script)
  {
  }

  lemma KeepsComment(t: string, script: bool)
    requires Keeps(t, true, script)
    ensures Keeps("<!--" + t, true, script)
  {
    var s := "<!--" + t;
    assert s[4..] == t;
    assert Escape(s) == "<\\!--" + Escape(t) && HasComment(s);
    hide Read, Escape, HasComment;
    ReadComment(t, script);
    ReadComment(Escape(t), script);
    ReadDashes(t, script);
    ReadDashes(Escape(t), script);
    NoCommentNoMatter(t, script);
  }

  lemma NoCommentNoMatter(t: string, script: bool)
    requires Keeps(t, true, script)
    ensures script ==> Read(Escape(t), true, script) == Read(t, true, script)
  {
  }

  lemma EscapeSeparator(c: char, t: string)
    requires c == LINE_SEPARATOR || c == PARAGRAPH_SEPARATOR
    ensures Escape([c] + t) == "\\u202" + [if c == LINE_SEPARATOR then '8' else '9'] + Escape(t)
  {
    assert ([c] + t)[1..] == t;
  }

  // A separator inside a string reads as itself, escaped or not.
  lemma KeepsSeparator(c: char, t: string, script: bool)
    requires c == LINE_SEPARATOR || c == PARAGRAPH_SEPARATOR
    requires Keeps(t, true, script)
    ensures Keeps([c] + t, true, script)
  {
    hide Read, Escape, HasComment;
    HasCommentSkips([c], t);
    EscapeSeparator(c, t);
    ReadLiteral(c, t, script);
    ReadSeparator(if c == LINE_SEPARATOR then '8' else '9', Escape(t), script);
  }

  // A piece without special characters keeps what follows it, if it reads the same way before any text.
  lemma KeepsPiece(plain: string, tokens: seq<Token>, t: string, inString: bool, after: bool, script: bool)
    requires plain != "" && forall i :: 0 <= i < |plain| ==> Plain(plain[i])
    requires forall u :: Read(plain + u, inString, script) == Then(tokens, Read(u, after, script))
    requires Keeps(t, after, script)
    ensures Keeps(plain + t, inString, script)
  {
    hide Read, Escape, HasComment;
    EscapeCopies(plain, t);
    HasCommentSkips(plain, t);
  }

  lemma ReadQuote(u: string, inString: bool, script: bool)
    ensures Read("\"" + u, inString, script) == Then([Quote], Read(u, !inString, script))
  {
    assert ("\"" + u)[1..] == u;
  }

  // Four cases a well-formed text can go on with when it does not start with something to escape.
  lemma KeepsQuote(t: string, inString: bool, script: bool)
    requires Keeps(t, !inString, script)
    ensures Keeps("\"" + t, inString, script)
  {
    hide Read, Keeps;
    forall u ensures Read("\"" + u, inString, script) == Then([Quote], Read(u, !inString, script)) {
      ReadQuote(u, inString, script);
    }
    KeepsPiece("\"", [Quote], t, inString, !inString, script);
  }

  lemma OutsideIsPlain(c: char)
    ensures OutsideChar(c) ==> Plain(c) && c != '"' && c != '/' && c != '!'
  {
  }

  lemma ReadOutside(c: char, u: string, script: bool)
    requires OutsideChar(c)
    ensures Read([c] + u, false, script) == Then([Outside(c)], Read(u, false, script))
  {
  }

  lemma KeepsOutside(c: char, t: string, script: bool)
    requires OutsideChar(c) && Keeps(t, false, script)
    ensures Keeps([c] + t, false, script)
  {
    hide OutsideChar, Read, Keeps;
    OutsideIsPlain(c);
    forall u ensures Read([c] + u, false, script) == Then([Outside(c)], Read(u, false, script)) {
      ReadOutside(c, u, script);
    }
    KeepsPiece([c], [Outside(c)], t, false, false, script);
  }

  lemma KeepsLiteral(c: char, t: string, script: bool)
    requires c != '"' && c != '\\' && c >= ' ' && Keeps(t, true, script)
    requires !OpensClose([c] + t) && !OpensComment([c] + t)
    ensures Keeps([c] + t, true, script)
  {
    hide Read, Escape, HasComment, OpensClose, OpensComment;
    if c == LINE_SEPARATOR || c == PARAGRAPH_SEPARATOR {
      KeepsSeparator(c, t, script);
    } else {
      EscapeOne(c, t);
      ReadLiteral(c, t, script);
      ReadLiteral(c, Escape(t), script);
    }
  }

  lemma EscapeOne(c: char, t: string)
    requires c != LINE_SEPARATOR && c != PARAGRAPH_SEPARATOR
    requires !OpensClose([c] + t) && !OpensComment([c] + t)
    ensures Escape([c] + t) == [c] + Escape(t) && HasComment([c] + t) == HasComment(t)
  {
  }

  lemma KeepsEscape(c: char, t: string, script: bool)
    requires EscapedChar(c, script).Some? && Keeps(t, true, script)
    ensures Keeps(['\\', c] + t, true, script)
  {
    hide Read, Keeps, EscapedChar;
    EscapedIsPlain(c, script);
    forall u
      ensures Read(['\\', c] + u, true, script) == Then([Unit(EscapedChar(c, script).value)], Read(u, true, script))
    {
      ReadEscaped(c, u, script);
    }
    KeepsPiece(['\\', c], [Unit(EscapedChar(c, script).value)], t, true, true, script);
  }

  lemma KeepsUnicode(h: string, t: string, script: bool)
    requires |h| == 4 && HexUnit(h).Some? && Keeps(t, true, script)
    ensures Keeps("\\u" + h + t, true, script)
  {
    hide Read, Keeps, HexUnit;
    HexIsPlain(h);
    forall u ensures Read("\\u" + h + u, true, script) == Then([Unit(HexUnit(h).value)], Read(u, true, script)) {
      ReadUnicode(h, u, script);
    }
    KeepsPiece("\\u" + h, [Unit(HexUnit(h).value)], t, true, true, script);
  }

  // How a readable text starts, and that its rest is readable.
  datatype Start = Nothing | QuoteStart | OutsideStart | LiteralStart | EscapeStart | UnicodeStart

  function StartOf(s: string, inString: bool): Start {
    if s == "" then Nothing
    else if s[0] == '"' then QuoteStart
    else if !inString then OutsideStart
    else if s[0] != '\\' then LiteralStart
    else if |s| >= 2 && s[1] == 'u' then UnicodeStart
    else EscapeStart
  }

  lemma ReadableStart(s: string, inString: bool, script: bool)
    requires Read(s, inString, script).Some?
    ensures StartOf(s, inString) == QuoteStart ==> Read(s[1..], !inString, script).Some?
    ensures StartOf(s, inString) == OutsideStart ==> OutsideChar(s[0]) && Read(s[1..], false, script).Some?
    ensures StartOf(s, inString) == LiteralStart ==> s[0] >= ' ' && Read(s[1..], true, script).Some?
    ensures StartOf(s, inString) == EscapeStart ==>
              |s| >= 2 && EscapedChar(s[1], script).Some? && Read(s[2..], true, script).Some?
    ensures StartOf(s, inString) == UnicodeStart ==>
              |s| >= 6 && HexUnit(s[2..6]).Some? && Read(s[6..], true, script).Some?
  {
  }

  // Decoding gives the same before and after: for every readable text, as a script reads it
  // always, and as strict JSON unless it held a comment opener, which then no longer reads.
  lemma {:induction false} EscapeKeeps(s: string, inString: bool, script: bool)
    requires Read(s, inString, script).Some?
    ensures Keeps(s, inString, script)
    decreases |s|
  {
    hide Keeps, Read, HexUnit;
    ReadableStart(s, inString, script);
    match StartOf(s, inString)
    case Nothing => KeepsNothing(inString, script);
    case QuoteStart =>
      EscapeKeeps(s[1..], !inString, script);
      assert s == "\"" + s[1..];
      KeepsQuote(s[1..], inString, script);
    case OutsideStart =>
      EscapeKeeps(s[1..], false, script);
      assert s == [s[0]] + s[1..];
      KeepsOutside(s[0], s[1..], script);
    case EscapeStart =>
      EscapeKeeps(s[2..], true, script);
      assert s == ['\\', s[1]] + s[2..];
      KeepsEscape(s[1], s[2..], script);
    case UnicodeStart =>
      EscapeKeeps(s[6..], true, script);
      assert s == "\\u" + s[2..6] + s[6..];
      KeepsUnicode(s[2..6], s[6..], script);
    case LiteralStart =>
      if OpensClose(s) {
        ReadableClose(s, script);
        EscapeKeeps(s[2..], true, script);
        assert s == "</" + s[2..];
        KeepsClose(s[2..], script);
      } else if OpensComment(s) {
        ReadableComment(s, script);
        EscapeKeeps(s[4..], true, script);
        assert s == "<!--" + s[4..];
        KeepsComment(s[4..], script);
      } else {
        EscapeKeeps(s[1..], true, script);
        assert s == [s[0]] + s[1..];
        KeepsLiteral(s[0], s[1..], script);
      }
  }

  lemma KeepsNothing(inString: bool, script: bool)
    ensures Keeps("", inString, script)
  {
  }

  lemma ReadableClose(s: string, script: bool)
    requires OpensClose(s) && Read(s, true, script).Some?
    ensures Read(s[2..], true, script).Some?
  {
  }

  lemma ReadableComment(s: string, script: bool)
    requires OpensComment(s) && Read(s, true, script).Some?
    ensures Read(s[4..], true, script).Some?
  {
    assert s == "<!--" + s[4..];
    ReadComment(s[4..], script);
    ReadDashes(s[4..], script);
  }

  // A script reads whatever strict JSON reads, and the same.
  lemma {:induction false} ScriptExtends(s: string, inString: bool)
    requires Read(s, inString, false).Some?
    ensures Read(s, inString, true) == Read(s, inString, false)
    decreases |s|
  {
    hide HexUnit, OutsideChar, Units;
    ReadableStart(s, inString, false);
    match StartOf(s, inString)
    case Nothing =>
    case QuoteStart => ScriptExtends(s[1..], !inString);
    case OutsideStart => ScriptExtends(s[1..], false);
    case LiteralStart => ScriptExtends(s[1..], true);
    case EscapeStart => ScriptExtends(s[2..], true);
    case UnicodeStart => ScriptExtends(s[6..], true);
  }

  // A script reads from the escaped text exactly what the encoder wrote.
  lemma EscapedReadsTheSame(json: string)
    requires Read(json, false, false).Some?
    ensures Read(EscapeChain(json), false, true) == Read(json, false, false)
    ensures Read(EscapeChain(json), false, false) == if HasComment(json) then None else Read(json, false, false)
  {
    hide Read, EscapeChain, Escape, HasComment;
    ChainIsOnePass(json);
    ScriptExtends(json, false);
    EscapeKeeps(json, false, true);
    EscapeKeeps(json, false, false);
  }

  // The encoder in use writes every "<" as an escape, so its output holds no comment opener and
  // stays JSON.
  lemma {:induction false} NoAngleNoComment(json: string)
    requires '<' !in json
    ensures !HasComment(json)
  {
    if json != "" {
      NoAngleNoComment(json[1..]);
    }
  }

  lemma EncoderOutputStaysJson(json: string)
    requires Read(json, false, false).Some? && '<' !in json
    ensures Read(EscapeChain(json), false, false) == Read(json, false, false)
  {
    hide Read, EscapeChain, HasComment;
    NoAngleNoComment(json);
    EscapedReadsTheSame(json);
  }

  // A text that an encoder without that escape could write: a script still reads it, JSON does not.
  lemma CommentOpenerBreaksJson()
    ensures var json := "\"<!--\"";
            && Read(json, false, false).Some?
            && Read(EscapeChain(json), false, true) == Read(json, false, false)
            && Read(EscapeChain(json), false, false) == None
  {
    var json := "\"<!--\"";
    ReadableOpener();
    assert json[1..] == "<!--\"";
    assert HasComment(json[1..]);
    assert HasComment(json);
    hide Read, EscapeChain, HasComment;
    EscapedReadsTheSame(json);
  }

  lemma ReadableOpener()
    ensures Read("\"<!--\"", false, false).Some?
  {
    var rest := "\"";
    assert "\"<!--\""[1..] == "<!--" + rest && "--" + rest == "--\"" && rest[1..] == "";
    ReadComment(rest, false);
    ReadDashes(rest, false);
  }

  // ----- Into the template -----

  // What the encoder made of the data.
  datatype Data = Nil | Unencodable | Encoded(json: string)

  function JsonOf(data: Data): string {
    if data.Encoded? then data.json else "null"
  }

  // strings.Replace with a count of one.
  function ReplaceFirst(s: string, pattern: string, with: string): string {
    if StartsWith(s, pattern) then with + s[|pattern|..]
    else if s == "" then ""
    else [s[0]] + ReplaceFirst(s[1..], pattern, with)
  }

  function InjectData(html: string, data: Data): string {
    ReplaceFirst(html, PLACEHOLDER, EscapeChain(JsonOf(data)))
  }

  ghost predicate At(s: string, i: int, pattern: string) {
    0 <= i <= |s| && StartsWith(s[i..], pattern)
  }

  function FirstIndex(s: string, pattern: string): (r: Option<nat>)
    ensures r.Some? ==> r.value + |pattern| <= |s|
  {
    if StartsWith(s, pattern) then Some(0)
    else if s == "" then None
    else
      match FirstIndex(s[1..], pattern)
      case Some(i) => Some(i + 1)
      case None => None
  }

  // The index is that of the first occurrence, if there is any.
  lemma {:induction false} FirstIndexIsFirst(s: string, pattern: string)
    ensures FirstIndex(s, pattern) == None ==> forall i :: !At(s, i, pattern)
    ensures forall i: nat :: FirstIndex(s, pattern) == Some(i) ==>
              At(s, i, pattern) && forall j :: 0 <= j < i ==> !At(s, j, pattern)
  {
    hide StartsWith;
    assert s[0..] == s;
    if !StartsWith(s, pattern) && s != "" {
      FirstIndexIsFirst(s[1..], pattern);
      forall i | 1 <= i <= |s| ensures At(s, i, pattern) <==> At(s[1..], i - 1, pattern) {
        assert s[1..][i - 1..] == s[i..];
      }
    }
  }

  lemma Regroup(head: string, a: string, with: string, b: string)
    ensures head + (a + with + b) == (head + a) + with + b
  {
  }

  // What replacing the first occurrence gives, from where it is.
  function Replaced(s: string, i: nat, n: nat, with: string): string
    requires i + n <= |s|
  {
    s[..i] + with + s[i + n..]
  }

  lemma ReplacedInTail(s: string, i: nat, n: nat, with: string)
    requires s != "" && i + n <= |s[1..]|
    ensures Replaced(s, i + 1, n, with) == [s[0]] + Replaced(s[1..], i, n, with)
  {
    assert s[..i + 1] == [s[0]] + s[1..][..i];
    assert s[i + 1 + n..] == s[1..][i + n..];
    Regroup([s[0]], s[1..][..i], with, s[1..][i + n..]);
  }

  lemma ReplacedAtFront(s: string, pattern: string, with: string)
    requires StartsWith(s, pattern)
    ensures ReplaceFirst(s, pattern, with) == Replaced(s, 0, |pattern|, with)
  {
    assert s[..0] + with == with;
  }

  // Only the first occurrence is replaced, and a text without one is left alone.
  lemma {:induction false} ReplaceFirstReplaces(s: string, pattern: string, with: string)
    ensures match FirstIndex(s, pattern)
            case None => ReplaceFirst(s, pattern, with) == s
            case Some(i) => ReplaceFirst(s, pattern, with) == Replaced(s, i, |pattern|, with)
  {
    hide StartsWith, Replaced;
    if StartsWith(s, pattern) {
      ReplacedAtFront(s, pattern, with);
    } else if s != "" {
      ReplaceFirstReplaces(s[1..], pattern, with);
      match FirstIndex(s[1..], pattern)
      case None => assert s == [s[0]] + s[1..];
      case Some(i) => ReplacedInTail(s, i, |pattern|, with);
    }
  }

  // A page with data is the template around its first placeholder, quotes included.
  lemma PlaceholderReplaced(before: string, after: string, data: Data)
    requires forall j :: 0 <= j < |before| ==> !At(before + "\"__INJECTED_DATA__\"" + after, j, PLACEHOLDER)
    ensures InjectData(before + "\"__INJECTED_DATA__\"" + after, data) == before + EscapeChain(JsonOf(data)) + after
  {
    hide EscapeChain, ReplaceFirst, FirstIndex, JsonOf;
    var html := before + PLACEHOLDER + after;
    assert html[|before|..] == PLACEHOLDER + after && html[..|before|] == before;
    assert html[|before| + |PLACEHOLDER|..] == after;
    assert At(html, |before|, PLACEHOLDER);
    FirstIndexIsFirst(html, PLACEHOLDER);
    ReplaceFirstReplaces(html, PLACEHOLDER, EscapeChain(JsonOf(data)));
  }

  ghost predicate QuoteAfter(s: string, i: int) {
    exists j :: i < j && 0 <= j < |s| && s[j] == '"'
  }

  lemma QuoteInTail(s: string, k: nat, i: int)
    requires k <= |s| && QuoteAfter(s[k..], i)
    ensures QuoteAfter(s, i + k)
    ensures QuoteAfter(s, -1)
  {
  }

  // Inside a string there is a quote to come.
  lemma {:induction false} StringEnds(s: string, script: bool)
    requires Read(s, true, script).Some?
    ensures QuoteAfter(s, -1)
    decreases |s|
  {
    hide Read, HexUnit, QuoteAfter, EscapedChar;
    ReadableStart(s, true, script);
    match StartOf(s, true)
    case Nothing => NothingUnread(script);
    case QuoteStart => QuoteFirst(s);
    case LiteralStart =>
      StringEnds(s[1..], script);
      QuoteInTail(s, 1, -1);
    case EscapeStart =>
      StringEnds(s[2..], script);
      QuoteInTail(s, 2, -1);
    case UnicodeStart =>
      StringEnds(s[6..], script);
      QuoteInTail(s, 6, -1);
  }

  lemma QuoteFirst(s: string)
    requires s != "" && s[0] == '"'
    ensures QuoteAfter(s, -1)
  {
  }

  lemma NothingUnread(script: bool)
    ensures Read("", true, script) == None
  {
  }

  // An angle bracket stands in a string, so a quote follows it.
  lemma {:induction false} AngleBeforeQuote(s: string, inString: bool, script: bool, i: nat)
    requires Read(s, inString, script).Some? && i < |s| && s[i] == '<'
    ensures QuoteAfter(s, i)
    decreases |s|, 0
  {
    hide Read, HexUnit, OutsideChar, QuoteAfter, EscapedChar;
    ReadableStart(s, inString, script);
    match StartOf(s, inString)
    case QuoteStart => AngleInTail(s, !inString, script, i, 1);
    case OutsideStart =>
      OutsideIsPlain(s[0]);
      AngleInTail(s, false, script, i, 1);
    case LiteralStart =>
      if i == 0 {
        StringEnds(s[1..], script);
        QuoteInTail(s, 1, -1);
      } else {
        AngleInTail(s, true, script, i, 1);
      }
    case EscapeStart =>
      EscapedIsPlain(s[1], script);
      AngleInTail(s, true, script, i, 2);
    case UnicodeStart =>
      HexIsPlain(s[2..6]);
      assert forall k :: 2 <= k < 6 ==> s[k] == s[2..6][k - 2];
      AngleInTail(s, true, script, i, 6);
  }

  lemma EscapedIsPlain(c: char, script: bool)
    requires EscapedChar(c, script).Some?
    ensures Plain(c)
  {
  }

  lemma {:induction false} AngleInTail(s: string, inString: bool, script: bool, i: nat, k: nat)
    requires 0 < k <= i < |s| && s[i] == '<' && Read(s[k..], inString, script).Some?
    ensures QuoteAfter(s, i)
    decreases |s| - k, 1
  {
    hide Read, QuoteAfter;
    AngleBeforeQuote(s[k..], inString, script, i - k);
    QuoteInTail(s, k, i - k);
  }

  // The opener lies wholly in the first n characters.
  predicate OpenerWithin(s: string, i: int, n: int) {
    (CloseAt(s, i) && i + 2 <= n) || (CommentAt(s, i) && i + 4 <= n)
  }

  // The first text stops in the middle of a comment opener and the second one completes it.
  predicate Completes(before: string, rest: string) {
    var n := |before|;
    && rest != "" && rest[0] == '-'
    && ((n >= 3 && before[n - 3] == '<' && before[n - 2] == '!' && before[n - 1] == '-')
        || (n >= 2 && before[n - 2] == '<' && before[n - 1] == '!' && |rest| >= 2 && rest[1] == '-'))
  }

  lemma OpenerInside(before: string, e: string, after: string, i: nat)
    requires Harmless(e) && Read(e, false, true).Some?
    requires |before| <= i < |before| + |e|
    ensures !Opener(before + e + after, i)
  {
    hide Read;
    var doc, k := before + e + after, i - |before|;
    assert !Opener(e, k) && doc[i] == e[k];
    if e[k] == '<' {
      AngleBeforeQuote(e, false, true, k);
      var j :| k < j && 0 <= j < |e| && e[j] == '"';
      assert forall m :: 0 <= m < |e| ==> doc[|before| + m] == e[m];
      assert doc[|before| + j] == '"';
      assert doc[i + 1] == e[k + 1];
    }
  }

  // No opener but a completed comment opener reaches from the text before the data into it.
  lemma OpenerAcross(before: string, e: string, after: string, i: nat)
    requires Read(e, false, true).Some? && e != "" && !Completes(before, e + after)
    requires i < |before| && Opener(before + e + after, i)
    ensures OpenerWithin(before + e + after, i, |before|)
  {
    assert before + e + after == before + (e + after);
  }

  lemma CompletedOpener(before: string, e: string, after: string)
    requires Completes(before, e + after)
    ensures exists i: nat :: i < |before| && Opener(before + e + after, i)
                             && !OpenerWithin(before + e + after, i, |before|)
  {
    var doc, n := before + e + after, |before|;
    assert doc == before + (e + after);
    var i: nat := if before[n - 1] == '-' then n - 3 else n - 2;
    assert CommentAt(doc, i);
    assert Opener(doc, i) && !OpenerWithin(doc, i, n);
  }

  // Escaping keeps the minus signs in front, so the condition can be read off the plain text.
  lemma CompletesEscaped(before: string, json: string, after: string)
    requires json != ""
    ensures Completes(before, Escape(json) + after) <==> Completes(before, json + after)
  {
    EscapeHead(json);
    EscapeHead(json[1..]);
    EscapeNothing();
    hide Escape;
    if json[0] == '-' {
      assert |json| >= 2 ==> Escape(json)[1] == Escape(json[1..])[0];
    }
  }

  // Every opener of the page lies wholly in the template, before or after the data.
  ghost predicate OpensNothing(page: string, p: int, q: int) {
    forall i :: Opener(page, i) ==> OpenerWithin(page, i, p) || i >= q
  }

  // Putting encoded data into a template opens nothing that the template did not open by itself, if
  // and only if the data does not complete a comment opener in which the text before it stops.
  lemma InjectionOpensNothing(html: string, p: nat, json: string)
    requires FirstIndex(html, PLACEHOLDER) == Some(p)
    requires Read(json, false, false).Some? && json != ""
    ensures var after, page := html[p + |PLACEHOLDER|..], InjectData(html, Encoded(json));
            && page == html[..p] + EscapeChain(json) + after
            && (OpensNothing(page, p, p + |EscapeChain(json)|) <==> !Completes(html[..p], json + after))
  {
    hide Read, EscapeChain, Escape, Harmless, FirstIndex, ReplaceFirst, Opener, OpenerWithin, Completes;
    var before, e, after := html[..p], EscapeChain(json), html[p + |PLACEHOLDER|..];
    var page := before + e + after;
    ReplaceFirstReplaces(html, PLACEHOLDER, e);
    ChainIsOnePass(json);
    EscapeIsHarmless(json);
    EscapeHead(json);
    EscapedReadsTheSame(json);
    CompletesEscaped(before, json, after);
    if Completes(before, e + after) {
      CompletedOpener(before, e, after);
    } else {
      forall i | Opener(page, i) ensures OpenerWithin(page, i, p) || i >= p + |e| {
        OpenerInPage(page, i);
        if i < p {
          OpenerAcross(before, e, after, i);
        } else if i < p + |e| {
          OpenerInside(before, e, after, i);
        }
      }
    }
  }

  lemma OpenerInPage(page: string, i: int)
    requires Opener(page, i)
    ensures 0 <= i < |page|
  {
  }

  lemma NullStays()
    ensures EscapeChain("null") == "null"
  {
    hide EscapeChain, Escape;
    ChainIsOnePass("null");
    EscapeCopies("null", "");
    assert "null" + "" == "null";
    EscapeNothing();
  }

  lemma EscapeNothing()
    ensures Escape("") == ""
  {
  }

  // Missing or unencodable data becomes null.
  lemma NoDataIsNull(html: string, p: nat, data: Data)
    requires FirstIndex(html, PLACEHOLDER) == Some(p) && !data.Encoded?
    ensures InjectData(html, data) == html[..p] + "null" + html[p + |PLACEHOLDER|..]
  {
    hide FirstIndex, EscapeChain, ReplaceFirst;
    NullStays();
    ReplaceFirstReplaces(html, PLACEHOLDER, "null");
  }
}

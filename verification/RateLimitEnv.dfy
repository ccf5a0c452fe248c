/** The KITE_RATELIMIT parser (`tool=N,tool=N,...`) and the reload loop around it. */
module RateLimitEnv {
  import opened Wrappers
  import opened Text

  datatype Reason = MissingEquals | EmptyTool | NonInteger | NegativeLimit

  datatype ParseError = ParseError(pair: string, reason: Reason)

  type Caps = map<string, int>

  // One trimmed, non-blank pair.
  function ParsePair(pair: string): Result<(string, int), ParseError> {
    match Cut(pair, '=')
    case None => Err(ParseError(pair, MissingEquals))
    case Some((left, right)) =>
      var tool := Trim(left);
      if tool == "" then Err(ParseError(pair, EmptyTool))
      else match Atoi(Trim(right))
           case None => Err(ParseError(pair, NonInteger))
           case Some(limit) =>
             if limit < 0 then Err(ParseError(pair, NegativeLimit)) else Ok((tool, limit))
  }

  // What one part between commas says.
  datatype Part = Blank | Bad(error: ParseError) | Cap(tool: string, limit: int)

  function ReadPart(part: string): Part {
    var pair := Trim(part);
    if pair == "" then Blank
    else match ParsePair(pair)
         case Err(e) => Bad(e)
         case Ok((tool, limit)) => Cap(tool, limit)
  }

  // The parts between commas; a blank setting has none.
  function Parts(s: string): seq<string> {
    if Trim(s) == "" then [] else Split(Trim(s), ',')
  }

  // What the first k parts give: an insertion per pair, or the first error.
  function Interpret(parts: seq<string>, k: nat): Result<Caps, ParseError>
    requires k <= |parts|
  {
    if k == 0 then Ok(map[])
    else match Interpret(parts, k - 1)
         case Err(e) => Err(e)
         case Ok(caps) =>
           match ReadPart(parts[k - 1])
           case Blank => Ok(caps)
           case Bad(e) => Err(e)
           case Cap(tool, limit) => Ok(caps[tool := limit])
  }

  function Parse(s: string): Result<Caps, ParseError> {
    Interpret(Parts(s), |Parts(s)|)
  }

  method ParseRateLimitEnv(s: string) returns (r: Result<Caps, ParseError>)
    ensures r == Parse(s)
  {
    hide Trim, Split, Cut, Atoi;
    var text := Trim(s);
    if text == "" {
      return Ok(map[]);
    }
    var out: Caps := map[];
    var parts := Split(text, ',');
    for i := 0 to |parts|
      invariant Interpret(parts, i) == Ok(out)
    {
      var pair := Trim(parts[i]);
      if pair == "" {
        continue;
      }
      var kv := Cut(pair, '=');
      if kv.None? {
        BadPartRejects(parts, i, |parts|);
        return Err(ParseError(pair, MissingEquals));
      }
      var tool := Trim(kv.value.0);
      if tool == "" {
        BadPartRejects(parts, i, |parts|);
        return Err(ParseError(pair, EmptyTool));
      }
      var limit := Atoi(Trim(kv.value.1));
      if limit.None? {
        BadPartRejects(parts, i, |parts|);
        return Err(ParseError(pair, NonInteger));
      }
      if limit.value < 0 {
        BadPartRejects(parts, i, |parts|);
        return Err(ParseError(pair, NegativeLimit));
      }
      out := out[tool := limit.value];
    }
    return Ok(out);
  }

  // ----- What a part means -----

  // Spaces around a text.
  predicate Pads(a: string, b: string) { AllSpace(a) && AllSpace(b) }

  // A part of spaces says nothing, and one without "=" is an error under its trimmed text.
  lemma NoPair(a: string, pair: string, b: string)
    requires Pads(a, b) && Trimmed(pair) && '=' !in pair
    ensures ReadPart(a + pair + b) == if pair == "" then Blank else Bad(ParseError(pair, MissingEquals))
  {
    TrimOfPadded(a, pair, b);
    CutAtFirst(pair, '=');
  }

  // What a name and a number, trimmed, say.
  function Meaning(pair: string, tool: string, number: string): Part {
    if tool == "" then Bad(ParseError(pair, EmptyTool))
    else match Atoi(number)
         case None => Bad(ParseError(pair, NonInteger))
         case Some(n) => if n < 0 then Bad(ParseError(pair, NegativeLimit)) else Cap(tool, n)
  }

  lemma ReadsPair(part: string, pair: string, left: string, right: string)
    requires Trim(part) == pair && pair == left + ['='] + right && '=' !in left
    ensures ReadPart(part) == Meaning(pair, Trim(left), Trim(right))
  {
    hide Trim, Atoi;
    CutOf(left, '=', right);
  }

  // Anything else is a pair around its first "=": the name and the number may be padded, the name
  // must not be empty, and the number must be an integer of 64 bits that is not negative.
  lemma PairMeans(a: string, b: string, tool: string, c: string, d: string, number: string, e: string, f: string)
    requires Pads(a, b) && Pads(c, d) && Pads(e, f) && Trimmed(tool) && Trimmed(number)
    requires '=' !in tool && Trimmed(c + tool + d + "=" + (e + number + f))
    ensures var pair := c + tool + d + "=" + (e + number + f);
            ReadPart(a + pair + b) == Meaning(pair, tool, number)
  {
    hide Trim, Trimmed, AllSpace, ReadPart, Meaning;
    var left, right := c + tool + d, e + number + f;
    var pair := left + "=" + right;
    TrimOfPadded(a, pair, b);
    TrimOfPadded(c, tool, d);
    TrimOfPadded(e, number, f);
    EqualsIsNoSpace(c, d);
    ReadsPair(a + pair + b, pair, left, right);
  }

  lemma EqualsIsNoSpace(c: string, d: string)
    requires Pads(c, d)
    ensures '=' !in c && '=' !in d
  {
    AsciiSpaces('=');
  }

  // ----- All or nothing -----

  lemma {:induction false} BadPartRejects(parts: seq<string>, i: nat, k: nat)
    requires i < k <= |parts| && Interpret(parts, i).Ok? && ReadPart(parts[i]).Bad?
    ensures Interpret(parts, k) == Err(ReadPart(parts[i]).error)
  {
    hide ReadPart;
    if i + 1 < k { BadPartRejects(parts, i, k - 1); }
  }

  lemma {:induction false} AcceptedIffAllGood(parts: seq<string>, k: nat)
    requires k <= |parts|
    ensures Interpret(parts, k).Ok? <==> forall i :: 0 <= i < k ==> !ReadPart(parts[i]).Bad?
  {
    hide ReadPart;
    if k > 0 {
      AcceptedIffAllGood(parts, k - 1);
      assert (forall i :: 0 <= i < k ==> !ReadPart(parts[i]).Bad?) <==>
             (forall i :: 0 <= i < k - 1 ==> !ReadPart(parts[i]).Bad?) && !ReadPart(parts[k - 1]).Bad?;
    }
  }

  // A setting is accepted exactly when no part is a malformed pair; otherwise nothing of it is.
  lemma OneBadPairRejectsAll(s: string)
    ensures Parse(s).Ok? <==> forall i :: 0 <= i < |Parts(s)| ==> !ReadPart(Parts(s)[i]).Bad?
  {
    hide ReadPart, Parts;
    AcceptedIffAllGood(Parts(s), |Parts(s)|);
  }

  // ----- The last occurrence of a tool wins -----

  predicate NamesTool(part: string, tool: string) {
    ReadPart(part).Cap? && ReadPart(part).tool == tool
  }

  ghost predicate LastNaming(parts: seq<string>, k: nat, tool: string, i: nat)
    requires k <= |parts|
  {
    i < k && NamesTool(parts[i], tool) && forall j :: i < j < k ==> !NamesTool(parts[j], tool)
  }

  lemma {:induction false} LastOccurrenceWins(parts: seq<string>, k: nat, caps: Caps, tool: string, i: nat)
    requires k <= |parts| && Interpret(parts, k) == Ok(caps)
    requires LastNaming(parts, k, tool, i)
    ensures tool in caps && caps[tool] == LimitIn(parts[i])
  {
    hide ReadPart, LimitIn;
    LimitOfCap(parts[k - 1]);
    if i < k - 1 {
      LastOccurrenceWins(parts, k - 1, Interpret(parts, k - 1).value, tool, i);
      assert !NamesTool(parts[k - 1], tool);
    }
  }

  lemma {:induction false} OnlyNamedToolsPresent(parts: seq<string>, k: nat, caps: Caps, tool: string)
    requires k <= |parts| && Interpret(parts, k) == Ok(caps)
    ensures tool in caps <==> exists i: nat :: i < k && NamesTool(parts[i], tool)
  {
    hide ReadPart;
    if k > 0 {
      OnlyNamedToolsPresent(parts, k - 1, Interpret(parts, k - 1).value, tool);
      if NamesTool(parts[k - 1], tool) {
        assert tool in caps;
      } else {
        assert tool in caps <==> tool in Interpret(parts, k - 1).value;
      }
    }
  }

  function LimitIn(part: string): int {
    var p := ReadPart(part);
    if p.Cap? then p.limit else 0
  }

  lemma LimitOfCap(part: string)
    ensures ReadPart(part).Cap? ==> LimitIn(part) == ReadPart(part).limit
  {
  }

  // ----- Printing and parsing again -----

  predicate CanonicalTool(tool: string) {
    tool != "" && Trimmed(tool) && ',' !in tool && '=' !in tool
  }

  ghost predicate Canonical(caps: Caps) {
    forall tool :: tool in caps ==> CanonicalTool(tool) && 0 <= caps[tool] <= INT64_MAX
  }

  lemma ParsedPairCanonical(part: string)
    requires ',' !in part && ReadPart(part).Cap?
    ensures CanonicalTool(ReadPart(part).tool) && 0 <= ReadPart(part).limit <= INT64_MAX
  {
    TrimTrims(part);
    CutAtFirst(Trim(part), '=');
    TrimTrims(Cut(Trim(part), '=').value.0);
  }

  lemma {:induction false} InterpretCanonical(parts: seq<string>, k: nat)
    requires k <= |parts| && forall p :: p in parts ==> ',' !in p
    requires Interpret(parts, k).Ok?
    ensures Canonical(Interpret(parts, k).value)
  {
    hide ReadPart, CanonicalTool;
    if k > 0 {
      InterpretCanonical(parts, k - 1);
      if ReadPart(parts[k - 1]).Cap? { ParsedPairCanonical(parts[k - 1]); }
    }
  }

  // Whatever is accepted has trimmed, non-empty names without commas or equals signs and limits
  // in the 64-bit range.
  lemma AcceptedIsCanonical(s: string)
    requires Parse(s).Ok?
    ensures Canonical(Parse(s).value)
  {
    PartsHaveNoSeparator(Trim(s), ',');
    InterpretCanonical(Parts(s), |Parts(s)|);
  }

  function PrintPair(tool: string, limit: int): string
    requires 0 <= limit
  {
    tool + "=" + Itoa(limit)
  }

  function PrintPairs(caps: Caps, order: seq<string>): (pairs: seq<string>)
    requires forall t :: t in order ==> t in caps && 0 <= caps[t]
    ensures |pairs| == |order|
    ensures forall i :: 0 <= i < |order| ==> pairs[i] == PrintPair(order[i], caps[order[i]])
  {
    seq(|order|, i requires 0 <= i < |order| => PrintPair(order[i], caps[order[i]]))
  }

  // The canonical printer: the keys in any order.
  function Print(caps: Caps, order: seq<string>): string
    requires forall t :: t in order ==> t in caps && 0 <= caps[t]
  {
    if order == [] then "" else Join(PrintPairs(caps, order), ',')
  }

  lemma DigitsAreOrdinary(n: nat)
    ensures Trimmed(Itoa(n)) && ',' !in Itoa(n)
  {
  }

  lemma PrintedPair(tool: string, limit: int)
    requires CanonicalTool(tool) && 0 <= limit <= INT64_MAX
    ensures ReadPart(PrintPair(tool, limit)) == Cap(tool, limit)
    ensures Trimmed(PrintPair(tool, limit)) && PrintPair(tool, limit) != "" && ',' !in PrintPair(tool, limit)
  {
    DigitsAreOrdinary(limit);
    assert PrintPair(tool, limit) == tool + ['='] + Itoa(limit);
    CutOf(tool, '=', Itoa(limit));
    TrimTrims(tool);
    TrimTrims(Itoa(limit));
    TrimTrims(PrintPair(tool, limit));
    AtoiOfItoa(limit);
  }

  lemma {:induction false} JoinTrimmed(parts: seq<string>)
    requires parts != [] && forall p :: p in parts ==> Trimmed(p) && p != ""
    ensures Trimmed(Join(parts, ',')) && Join(parts, ',') != ""
  {
    if |parts| > 1 {
      JoinTrimmed(parts[1..]);
      assert parts[0] in parts;
      var rest := Join(parts[1..], ',');
      assert Join(parts, ',') == parts[0] + [','] + rest;
    } else {
      assert parts[0] in parts;
    }
  }

  lemma {:induction false} InterpretPrinted(caps: Caps, order: seq<string>, k: nat)
    requires Canonical(caps) && k <= |order|
    requires forall t :: t in order ==> t in caps
    ensures Interpret(PrintPairs(caps, order), k) == Ok(map t | t in order[..k] :: caps[t])
  {
    hide ReadPart, PrintPair, CanonicalTool;
    if k > 0 {
      InterpretPrinted(caps, order, k - 1);
      var tool := order[k - 1];
      PrintedPair(tool, caps[tool]);
      assert order[..k] == order[..k - 1] + [tool];
      assert (map t | t in order[..k - 1] :: caps[t])[tool := caps[tool]] == (map t | t in order[..k] :: caps[t]);
    }
  }

  // Round trip: for every accepted setting, printing the caps with their keys in any order and
  // parsing again gives the same caps.
  lemma PrintParseRoundTrip(s: string, order: seq<string>)
    requires Parse(s).Ok?
    requires forall t :: t in order <==> t in Parse(s).value
    ensures Canonical(Parse(s).value)
    ensures Parse(Print(Parse(s).value, order)) == Parse(s)
  {
    AcceptedIsCanonical(s);
    var caps := Parse(s).value;
    PrintedParses(caps, order);
    assert (map t | t in order :: caps[t]) == caps;
  }

  lemma PrintedParses(caps: Caps, order: seq<string>)
    requires Canonical(caps) && forall t :: t in order ==> t in caps
    ensures Parse(Print(caps, order)) == Ok(map t | t in order :: caps[t])
  {
    hide Trim, PrintPair, Trimmed, Interpret;
    var text, pairs := Print(caps, order), PrintPairs(caps, order);
    InterpretPrinted(caps, order, |order|);
    assert order[..|order|] == order;
    if order == [] {
      TrimTrims("");
      EmptyTrimmed();
    } else {
      forall p | p in pairs ensures Trimmed(p) && p != "" && ',' !in p {
        var i :| 0 <= i < |pairs| && p == pairs[i];
        PrintedPair(order[i], caps[order[i]]);
      }
      JoinTrimmed(pairs);
      TrimTrims(text);
      SplitOfJoin(pairs, ',');
    }
  }

  lemma EmptyTrimmed()
    ensures Trimmed("")
  {
  }

  // ----- Reloading -----

  // A reload swaps the caps only for an accepted, non-empty setting.
  ghost predicate Swaps(env: string) {
    Parse(env).Ok? && Parse(env).value != map[]
  }

  // It does so exactly when some part names a tool and none is malformed.
  lemma SwapsExactly(env: string)
    ensures Swaps(env) <==>
              && (forall i :: 0 <= i < |Parts(env)| ==> !ReadPart(Parts(env)[i]).Bad?)
              && (exists i :: 0 <= i < |Parts(env)| && ReadPart(Parts(env)[i]).Cap?)
  {
    hide ReadPart, Parts;
    var parts := Parts(env);
    AcceptedIffAllGood(parts, |parts|);
    if Parse(env).Ok? {
      var caps := Parse(env).value;
      if caps != map[] {
        var tool :| tool in caps;
        OnlyNamedToolsPresent(parts, |parts|, caps, tool);
        var i: nat :| i < |parts| && NamesTool(parts[i], tool);
        assert ReadPart(parts[i]).Cap?;
      }
      if i: nat :| i < |parts| && ReadPart(parts[i]).Cap? {
        assert NamesTool(parts[i], ReadPart(parts[i]).tool);
        OnlyNamedToolsPresent(parts, |parts|, caps, ReadPart(parts[i]).tool);
      }
    }
  }

  // The SIGHUP loop over the settings it reads: the caps end up as given by the last setting that
  // swapped, or stay the startup caps.
  method ReloadLoop(startup: Caps, envs: seq<string>) returns (caps: Caps)
    ensures (forall j :: 0 <= j < |envs| ==> !Swaps(envs[j])) ==> caps == startup
    ensures forall j :: 0 <= j < |envs| && Swaps(envs[j]) && (forall i :: j < i < |envs| ==> !Swaps(envs[i])) ==>
              caps == Parse(envs[j]).value
  {
    hide Parse;
    caps := startup;
    for k := 0 to |envs|
      invariant (forall j :: 0 <= j < k ==> !Swaps(envs[j])) ==> caps == startup
      invariant forall j :: 0 <= j < k && Swaps(envs[j]) && (forall i :: j < i < k ==> !Swaps(envs[i])) ==>
                  caps == Parse(envs[j]).value
    {
      var limits := ParseRateLimitEnv(envs[k]);
      if limits.Err? {
        continue;
      }
      if |limits.value| == 0 {
        continue;
      }
      caps := limits.value;
    }
  }
}

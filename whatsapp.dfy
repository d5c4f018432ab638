/** The WhatsApp messaging service: template substitution, the message texts it sends, and
    the addressing of every message it hands to Twilio. The Twilio client is a function
    from a message to its failure, and `sent` stands for the messages Twilio accepted. */
module WhatsApp {
  import opened Wrappers
  import opened Strings

  // ---- template substitution ----------------------------------------------------------

  /** The text a variable `key` is written as in a template. */
  function Placeholder(key: string): (p: string)
    ensures |p| == |key| + 4 && p[0] == '{'
  {
    "{{" + key + "}}"
  }

  /** String.prototype.replace with a global pattern: every occurrence of `pat`, scanning
      left to right and resuming after each match, is replaced by `v`; the replacement text
      is not scanned again. */
  function ReplaceAll(s: string, pat: string, v: string): string
    requires pat != []
    decreases |s|
  {
    if |s| < |pat| then s
    else if s[..|pat|] == pat then v + ReplaceAll(s[|pat|..], pat, v)
    else [s[0]] + ReplaceAll(s[1..], pat, v)
  }

  /** The variables applied one after another, in entry order, to the running message. */
  function ApplyAll(template: string, variables: seq<(string, string)>): string
    decreases |variables|
  {
    if variables == [] then template
    else
      var (key, value) := variables[|variables| - 1];
      ReplaceAll(ApplyAll(template, variables[..|variables| - 1]), Placeholder(key), value)
  }

  /** replaceTemplateVariables: the forEach loop over the variables' entries. */
  method ReplaceTemplateVariables(template: string, variables: seq<(string, string)>)
    returns (message: string)
    ensures message == ApplyAll(template, variables)
  {
    message := template;
    for i := 0 to |variables|
      invariant message == ApplyAll(template, variables[..i])
    {
      var (key, value) := variables[i];
      message := ReplaceAll(message, Placeholder(key), value);
      assert variables[..i + 1][..i] == variables[..i];
    }
    assert variables[..|variables|] == variables;
  }

  /** Text that does not contain the pattern's first character passes through unchanged,
      and matching resumes right after it. */
  lemma {:induction false} ReplaceAllSkipsPlain(a: string, s: string, pat: string, v: string)
    requires pat != [] && pat[0] !in a
    ensures ReplaceAll(a + s, pat, v) == a + ReplaceAll(s, pat, v)
    decreases |a|
  {
    if a != [] {
      var t := a + s;
      if |t| >= |pat| {
        assert t[..|pat|][0] == a[0];
        assert t[1..] == a[1..] + s;
        ReplaceAllSkipsPlain(a[1..], s, pat, v);
        assert [a[0]] + a[1..] == a;
      } else {
        assert |s| < |pat|;
      }
    } else {
      assert a + s == s;
    }
  }

  /** A pattern at the head of the text is replaced, and matching resumes after it. */
  lemma ReplaceAllHead(s: string, pat: string, v: string)
    requires pat != []
    ensures ReplaceAll(pat + s, pat, v) == v + ReplaceAll(s, pat, v)
  {
    assert (pat + s)[..|pat|] == pat;
    assert (pat + s)[|pat|..] == s;
  }

  /** A key `new RegExp` reads as literal text between "{{" and "}}": it holds no regular
      expression metacharacter, and it is not a quantifier body "n", "n," or "n,m", which
      would turn "{{" into one '{' repeated. */
  predicate IsLiteralKey(key: string) {
    && (forall i :: 0 <= i < |key| ==> key[i] !in RegexMetacharacters)
    && !IsQuantifierBody(key)
  }

  const RegexMetacharacters: set<char> :=
    {'\\', '^', '$', '.', '|', '?', '*', '+', '(', ')', '[', ']', '{', '}'}

  predicate AllDigits(s: string) {
    forall i :: 0 <= i < |s| ==> IsAsciiDigit(s[i])
  }

  /** "n", "n," or "n,m" for non-empty digit runs n and m. */
  predicate IsQuantifierBody(key: string) {
    exists i :: 0 < i <= |key| && AllDigits(key[..i])
                && (i == |key| || (key[i] == ',' && AllDigits(key[i + 1..])))
  }

  /** A template as literal text and placeholders, in order. */
  datatype Piece = Text(text: string) | Var(key: string)

  function RenderPiece(p: Piece): string {
    match p
    case Text(t) => t
    case Var(k) => Placeholder(k)
  }

  /** The template text the pieces spell. */
  function Render(pieces: seq<Piece>): string
    decreases |pieces|
  {
    if pieces == [] then [] else RenderPiece(pieces[0]) + Render(pieces[1..])
  }

  predicate NoBraces(s: string) {
    '{' !in s && '}' !in s
  }

  /** Literal text holds no '{', and keys hold no brace. */
  predicate WellFormed(pieces: seq<Piece>) {
    forall i :: 0 <= i < |pieces| ==>
      match pieces[i]
      case Text(t) => '{' !in t
      case Var(k) => NoBraces(k)
  }

  /** The placeholders of `key` turned into the literal `value`. */
  function Fill(pieces: seq<Piece>, key: string, value: string): (r: seq<Piece>)
    ensures |r| == |pieces|
    ensures forall i :: 0 <= i < |r| ==> r[i] == if pieces[i] == Var(key) then Text(value) else pieces[i]
    decreases |pieces|
  {
    if pieces == [] then []
    else [if pieces[0] == Var(key) then Text(value) else pieces[0]] + Fill(pieces[1..], key, value)
  }

  /** Fill for each variable in entry order. */
  function FillAll(pieces: seq<Piece>, variables: seq<(string, string)>): seq<Piece>
    decreases |variables|
  {
    if variables == [] then pieces
    else
      var (key, value) := variables[|variables| - 1];
      Fill(FillAll(pieces, variables[..|variables| - 1]), key, value)
  }

  /** A placeholder for another key does not match at the start of a placeholder: the two
      keys first differ, or the shorter one ends, at a character one of them has as '}'. */
  lemma PlaceholderMismatch(other: string, key: string, rest: string)
    requires NoBraces(other) && NoBraces(key) && other != key
    requires |Placeholder(other) + rest| >= |Placeholder(key)|
    ensures (Placeholder(other) + rest)[..|Placeholder(key)|] != Placeholder(key)
  {
    var t := Placeholder(other) + rest;
    var p := Placeholder(key);
    var j: int;
    if |key| < |other| {
      j := 2 + |key|;
      assert p[j] == '}';
      assert t[j] == other[|key|];
      assert other[|key|] in other;
    } else if |key| > |other| {
      j := 2 + |other|;
      assert t[j] == '}';
      assert p[j] == key[|other|];
      assert key[|other|] in key;
    } else {
      assert !(forall i :: 0 <= i < |key| ==> key[i] == other[i]);
      var i :| 0 <= i < |key| && key[i] != other[i];
      j := 2 + i;
      assert p[j] == key[i] && t[j] == other[i];
    }
    assert t[..|p|][j] != p[j];
  }

  /** A placeholder for another key is copied through, and matching resumes after it. */
  lemma OtherPlaceholderKept(other: string, key: string, rest: string, value: string)
    requires NoBraces(other) && NoBraces(key) && other != key
    ensures ReplaceAll(Placeholder(other) + rest, Placeholder(key), value)
         == Placeholder(other) + ReplaceAll(rest, Placeholder(key), value)
  {
    var p := Placeholder(key);
    var tail := other + "}}";
    var u := ['{'] + (tail + rest);
    var t := ['{'] + u;
    assert '{' !in tail;
    ReplaceAllSkipsPlain(tail, rest, p, value);
    assert |u| >= |p| ==> u[..|p|] != p by {
      if |u| >= |p| {
        assert u[1] != '{' by {
          if other == [] { assert u[1] == '}'; } else { assert u[1] == other[0] && other[0] in other; }
        }
        assert u[..|p|][1] != p[1];
      }
    }
    ReplaceAllKeepsHead('{', tail + rest, p, value);
    PlaceholderSplit(other, rest);
    if |t| >= |p| {
      PlaceholderMismatch(other, key, rest);
    }
    ReplaceAllKeepsHead('{', u, p, value);
    var r := ReplaceAll(rest, p, value);
    assert ReplaceAll(t, p, value) == ['{'] + (['{'] + (tail + r));
    PlaceholderSplit(other, r);
  }

  /** A placeholder followed by text, taken apart character by character. */
  lemma PlaceholderSplit(key: string, r: string)
    ensures Placeholder(key) + r == ['{'] + (['{'] + ((key + "}}") + r))
  {
  }

  /** Where the pattern does not match at the head, the first character is kept and
      matching resumes after it. */
  lemma ReplaceAllKeepsHead(c: char, s: string, pat: string, v: string)
    requires pat != [] && (|[c] + s| >= |pat| ==> ([c] + s)[..|pat|] != pat)
    ensures ReplaceAll([c] + s, pat, v) == [c] + ReplaceAll(s, pat, v)
  {
    assert ([c] + s)[1..] == s;
  }

  /** Replacing one key's placeholders in the rendered template is rendering the template
      with that key filled in. */
  lemma {:induction false} FillMatchesReplace(pieces: seq<Piece>, key: string, value: string)
    requires WellFormed(pieces) && NoBraces(key)
    ensures ReplaceAll(Render(pieces), Placeholder(key), value) == Render(Fill(pieces, key, value))
    decreases |pieces|
  {
    var p := Placeholder(key);
    if pieces == [] {
      assert ReplaceAll([], p, value) == [];
    } else {
      var rest := Render(pieces[1..]);
      assert WellFormed(pieces[1..]) by {
        forall i | 0 <= i < |pieces[1..]| ensures pieces[1..][i] == pieces[i + 1] { }
      }
      FillMatchesReplace(pieces[1..], key, value);
      assert Fill(pieces, key, value)[1..] == Fill(pieces[1..], key, value);
      assert Render(Fill(pieces, key, value))
          == RenderPiece(Fill(pieces, key, value)[0]) + Render(Fill(pieces[1..], key, value));
      match pieces[0]
      case Text(t) =>
        assert '{' !in t;
        ReplaceAllSkipsPlain(t, rest, p, value);
      case Var(k) =>
        if k == key {
          ReplaceAllHead(rest, p, value);
        } else {
          OtherPlaceholderKept(k, key, rest, value);
        }
    }
  }

  /** Every key without a brace and every value without '{' keep the template well formed. */
  predicate PlainVariables(variables: seq<(string, string)>) {
    forall i :: 0 <= i < |variables| ==> NoBraces(variables[i].0) && '{' !in variables[i].1
  }

  /** Filling a key with a value without '{' keeps the template well formed. */
  lemma FillKeepsWellFormed(pieces: seq<Piece>, key: string, value: string)
    requires WellFormed(pieces) && '{' !in value
    ensures WellFormed(Fill(pieces, key, value))
  {
  }

  /** Applying the variables in turn to the rendered template is rendering the template
      with all of them filled in. */
  lemma {:induction false} FillAllMatchesApplyAll(pieces: seq<Piece>, variables: seq<(string, string)>)
    requires WellFormed(pieces) && PlainVariables(variables)
    ensures WellFormed(FillAll(pieces, variables))
    ensures ApplyAll(Render(pieces), variables) == Render(FillAll(pieces, variables))
    decreases |variables|
  {
    if variables != [] {
      var n := |variables| - 1;
      var key, value := variables[n].0, variables[n].1;
      var init := variables[..n];
      assert NoBraces(key) && '{' !in value;
      assert PlainVariables(init) by {
        forall i | 0 <= i < n ensures init[i] == variables[i] { }
      }
      FillAllMatchesApplyAll(pieces, init);
      var before := FillAll(pieces, init);
      assert FillAll(pieces, variables) == Fill(before, key, value);
      assert ApplyAll(Render(pieces), variables) == ReplaceAll(ApplyAll(Render(pieces), init), Placeholder(key), value);
      FillMatchesReplace(before, key, value);
      FillKeepsWellFormed(before, key, value);
    }
  }

  /** The keys the variables supply. */
  function SuppliedKeys(variables: seq<(string, string)>): (keys: set<string>)
    ensures forall j :: 0 <= j < |variables| ==> variables[j].0 in keys
    decreases |variables|
  {
    if variables == [] then {}
    else SuppliedKeys(variables[..|variables| - 1]) + {variables[|variables| - 1].0}
  }

  /** After FillAll, a placeholder is left only where the template had one for a key no
      variable supplies. */
  lemma {:induction false} FillAllLeavesUnsupplied(pieces: seq<Piece>, variables: seq<(string, string)>)
    ensures |FillAll(pieces, variables)| == |pieces|
    ensures forall i :: 0 <= i < |pieces| && FillAll(pieces, variables)[i].Var? ==>
              FillAll(pieces, variables)[i] == pieces[i] && pieces[i].key !in SuppliedKeys(variables)
    decreases |variables|
  {
    if variables != [] {
      var n := |variables| - 1;
      var key, value := variables[n].0, variables[n].1;
      var init := variables[..n];
      FillAllLeavesUnsupplied(pieces, init);
      var before := FillAll(pieces, init);
      var after := Fill(before, key, value);
      assert FillAll(pieces, variables) == after;
      assert SuppliedKeys(variables) == SuppliedKeys(init) + {key};
      forall i | 0 <= i < |pieces| && after[i].Var?
        ensures after[i] == pieces[i] && pieces[i].key !in SuppliedKeys(variables)
      {
        assert after[i] == before[i] && before[i] != Var(key);
      }
    }
  }

  /** Rendered literal text without '{' holds no '{'. */
  lemma {:induction false} RenderTextsAvoid(pieces: seq<Piece>)
    requires forall i :: 0 <= i < |pieces| ==> pieces[i].Text? && '{' !in pieces[i].text
    ensures '{' !in Render(pieces)
    decreases |pieces|
  {
    if pieces != [] {
      assert forall i :: 0 <= i < |pieces[1..]| ==> pieces[1..][i] == pieces[i + 1];
      RenderTextsAvoid(pieces[1..]);
    }
  }

  /** replaceTemplateVariables on a template whose every placeholder names a supplied key:
      the message is the template with each placeholder replaced by its key's value, and no
      placeholder of any key is left. Keys are read literally by the regular expression,
      and values hold neither '{' nor a `$` replacement pattern. */
  lemma SubstituteVariables(pieces: seq<Piece>, variables: seq<(string, string)>)
    requires WellFormed(pieces) && PlainVariables(variables)
    requires forall i :: 0 <= i < |variables| ==> IsLiteralKey(variables[i].0) && '$' !in variables[i].1
    requires forall i :: 0 <= i < |pieces| && pieces[i].Var? ==> pieces[i].key in SuppliedKeys(variables)
    ensures ApplyAll(Render(pieces), variables) == Render(FillAll(pieces, variables))
    ensures forall key :: !Contains(ApplyAll(Render(pieces), variables), Placeholder(key))
  {
    FillAllMatchesApplyAll(pieces, variables);
    var filled := FillAll(pieces, variables);
    FillAllLeavesUnsupplied(pieces, variables);
    assert forall i :: 0 <= i < |filled| ==> filled[i].Text? && '{' !in filled[i].text;
    RenderTextsAvoid(filled);
    forall key ensures !Contains(Render(filled), Placeholder(key)) {
      AbsentChar(Render(filled), Placeholder(key), 0);
    }
  }

  /** With no variables the template is returned unchanged. */
  lemma NoVariables(template: string)
    ensures ApplyAll(template, []) == template
  {
  }

  /** Entry order matters: a value inserted for an earlier key is itself substituted by a
      later key, but not the other way round. */
  lemma EntryOrderMatters()
    ensures ApplyAll("{{a}}", [("a", "{{b}}"), ("b", "x")]) == "x"
    ensures ApplyAll("{{a}}", [("b", "x"), ("a", "{{b}}")]) == "{{b}}"
  {
    var forward: seq<(string, string)> := [("a", "{{b}}"), ("b", "x")];
    assert forward[..1] == [("a", "{{b}}")] && forward[..1][..0] == [];
    ReplaceAllHead("", "{{a}}", "{{b}}");
    ReplaceAllHead("", "{{b}}", "x");
    assert Placeholder("a") == "{{a}}" && Placeholder("b") == "{{b}}";
    var backward: seq<(string, string)> := [("b", "x"), ("a", "{{b}}")];
    assert backward[..1] == [("b", "x")] && backward[..1][..0] == [];
    assert "{{a}}"[..5] != "{{b}}" by {
      assert "{{a}}"[2] != "{{b}}"[2];
    }
    assert "{{a}}"[1..] == "{a}}";
    assert ReplaceAll("{{a}}", "{{b}}", "x") == "{{a}}";
  }

  /** Replacement does not rescan, so braces around a placeholder can leave a placeholder
      behind even though the value holds none. */
  lemma PlaceholderCanSurvive()
    ensures ApplyAll("{{{{a}}}}", [("a", "a")]) == "{{a}}"
    ensures Contains(ApplyAll("{{{{a}}}}", [("a", "a")]), Placeholder("a"))
  {
    var p := "{{a}}";
    assert Placeholder("a") == p;
    assert [("a", "a")][..0] == [];
    var s := "{{{{a}}}}";
    assert s[..5] != p by { assert s[2] != p[2]; }
    assert s[1..] == "{{{a}}}}";
    assert s[1..][..5] != p by { assert s[1..][2] != p[2]; }
    assert s[1..][1..] == p + "}}";
    ReplaceAllHead("}}", p, "a");
    assert ReplaceAll("}}", p, "a") == "}}";
    assert OccursAt("{{a}}", p, 0);
  }

  // ---- messages -----------------------------------------------------------------------

  /** A phone number as a WhatsApp address. */
  function Address(number: string): string {
    "whatsapp:" + number
  }

  /** The greeting after the name, as the source literal spells it: the four characters
      U+00F0 U+0178 U+017D U+2030 ("ðŸŽ‰"), where the party-popper emoji's UTF-8 bytes were
      decoded once more as Windows-1252. */
  const WelcomeTail: string :=
    "! \U{F0}\U{178}\U{17D}\U{2030}\n\nThank you for joining our platform. We're excited to have you on board!\n\n"
    + "If you have any questions, feel free to reach out to our support team."

  const CodePrefix: string := "Your verification code is: "
  const CodeTail: string :=
    "\n\nThis code will expire in 10 minutes. Please do not share this code with anyone."

  function WelcomeText(firstName: string): string {
    "Welcome " + firstName + WelcomeTail
  }

  function VerificationText(code: string): (text: string)
    ensures StartsWith(text, CodePrefix + code)
  {
    CodePrefix + code + CodeTail
  }

  /** The first name can be read back from the welcome text. */
  lemma WelcomeTextNamesUser(firstName: string)
    ensures var text := WelcomeText(firstName);
      |text| >= 8 + |WelcomeTail| && text[8..|text| - |WelcomeTail|] == firstName
  {
  }

  /** The code can be read back from the verification text, so different codes give
      different texts. */
  lemma VerificationTextCarriesCode(code: string)
    ensures var text := VerificationText(code);
      |text| >= |CodePrefix| + |CodeTail| && text[|CodePrefix|..|text| - |CodeTail|] == code
  {
  }

  /** A message handed to Twilio. */
  datatype TwilioMessage = TwilioMessage(body: Option<string>, from: string, to: string, mediaUrl: seq<string>)

  class WhatsAppService {
    const fromNumber: string
    /** Twilio's messages.create: None when the message is accepted, or the error message. */
    const create: TwilioMessage -> Option<string>
    var sent: seq<TwilioMessage>

    constructor (fromNumber: string, create: TwilioMessage -> Option<string>)
      ensures this.fromNumber == fromNumber && this.create == create && sent == []
    {
      this.fromNumber := fromNumber;
      this.create := create;
      sent := [];
    }

    /** The message to `to` with the given body and media, from the configured number. */
    function Message(to: string, body: Option<string>, mediaUrl: seq<string>): (m: TwilioMessage)
      reads this
      ensures m.from == Address(fromNumber) && m.to == Address(to)
      ensures m.body == body && m.mediaUrl == mediaUrl
    {
      TwilioMessage(body, "whatsapp:" + fromNumber, "whatsapp:" + to, mediaUrl)
    }

    method Deliver(m: TwilioMessage, failure: string) returns (r: Result<(), string>)
      modifies this`sent
      ensures r.Success? <==> create(m).None?
      ensures r.Failure? ==> r.error == failure + create(m).value
      ensures sent == old(sent) + (if create(m).None? then [m] else [])
    {
      var answer := create(m);
      if answer.None? {
        sent := sent + [m];
        r := Success(());
      } else {
        r := Failure(failure + answer.value);
      }
    }

    method SendMessage(to: string, message: string) returns (r: Result<(), string>)
      modifies this`sent
      ensures var m := Message(to, Some(message), []);
        && (r.Success? <==> create(m).None?)
        && (r.Failure? ==> r.error == "Failed to send WhatsApp message: " + create(m).value)
        && sent == old(sent) + (if create(m).None? then [m] else [])
    {
      r := Deliver(Message(to, Some(message), []), "Failed to send WhatsApp message: ");
    }

    /** The template name is the template text; its variables are substituted in entry
        order. */
    method SendTemplateMessage(to: string, templateName: string, variables: seq<(string, string)>)
      returns (r: Result<(), string>)
      modifies this`sent
      ensures var m := Message(to, Some(ApplyAll(templateName, variables)), []);
        && (r.Success? <==> create(m).None?)
        && (r.Failure? ==> r.error == "Failed to send WhatsApp template message: " + create(m).value)
        && sent == old(sent) + (if create(m).None? then [m] else [])
    {
      var body := ReplaceTemplateVariables(templateName, variables);
      r := Deliver(Message(to, Some(body), []), "Failed to send WhatsApp template message: ");
    }

    method SendMediaMessage(to: string, mediaUrl: string, caption: Option<string>)
      returns (r: Result<(), string>)
      modifies this`sent
      ensures var m := Message(to, caption, [mediaUrl]);
        && (r.Success? <==> create(m).None?)
        && (r.Failure? ==> r.error == "Failed to send WhatsApp media message: " + create(m).value)
        && sent == old(sent) + (if create(m).None? then [m] else [])
    {
      r := Deliver(Message(to, caption, [mediaUrl]), "Failed to send WhatsApp media message: ");
    }

    method SendWelcomeMessage(to: string, firstName: string) returns (r: Result<(), string>)
      modifies this`sent
      ensures var m := Message(to, Some(WelcomeText(firstName)), []);
        && (r.Success? <==> create(m).None?)
        && (r.Failure? ==> r.error == "Failed to send WhatsApp message: " + create(m).value)
        && sent == old(sent) + (if create(m).None? then [m] else [])
    {
      r := SendMessage(to, WelcomeText(firstName));
    }

    method SendVerificationCode(to: string, code: string) returns (r: Result<(), string>)
      modifies this`sent
      ensures var m := Message(to, Some(VerificationText(code)), []);
        && (r.Success? <==> create(m).None?)
        && (r.Failure? ==> r.error == "Failed to send WhatsApp message: " + create(m).value)
        && sent == old(sent) + (if create(m).None? then [m] else [])
    {
      r := SendMessage(to, VerificationText(code));
    }
  }
}

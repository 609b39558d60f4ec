/** `parseCodeBlock` of the chat page: recognising a message that is one
    fenced code block, /^```(\w*)\n?([\s\S]*?)```$/ applied to the trimmed text. */
module CodeBlock {
  import opened Text

  /** What the chat renders a message as. `lang` is empty when no language
      was named; all three fields are cleared for ordinary text. */
  datatype Parsed = Parsed(isCode: bool, code: string, lang: string)

  const Fence: string := "```"

  /** The longest run of word characters that `s` starts with (what the
      greedy `(\w*)` captures). */
  function LeadingWord(s: string): (w: string)
    ensures |w| <= |s| && w == s[..|w|]
    ensures forall i :: 0 <= i < |w| ==> IsWordChar(w[i])
    ensures |w| == |s| || !IsWordChar(s[|w|])
  {
    if s != [] && IsWordChar(s[0]) then [s[0]] + LeadingWord(s[1..]) else []
  }

  /** The trimmed text opens and closes with a fence, the two not overlapping. */
  predicate HasFences(t: string) {
    |t| >= 6 && t[..3] == Fence && t[|t| - 3..] == Fence
  }

  /** Where the body starts in a fenced text `t`: after the fence, the
      language and, if there is one, the newline that follows it. It is never
      past the closing fence, since that fence's backticks end the language. */
  function BodyStart(t: string): (p: nat)
    requires HasFences(t)
    ensures 3 + |LeadingWord(t[3..])| <= p <= |t| - 3
    ensures var k := 3 + |LeadingWord(t[3..])|; p == k + (if t[k] == '\n' then 1 else 0)
  {
    var k := |LeadingWord(t[3..])|;
    assert t[|t| - 3] == Fence[0];
    assert k <= |t| - 6 by {
      assert t[3..][|t| - 6] == t[|t| - 3];
    }
    if t[3 + k] == '\n' then 4 + k else 3 + k
  }

  /** The regular expression applied to the already trimmed text `t`, with
      the captured body trimmed in turn. */
  function Recognise(t: string): (r: Parsed)
    ensures r.isCode <==> HasFences(t)
    ensures !r.isCode ==> r == Parsed(false, "", "")
    ensures forall i :: 0 <= i < |r.lang| ==> IsWordChar(r.lang[i])
  {
    if HasFences(t) then
      Parsed(true, Trim(t[BodyStart(t)..|t| - 3]), LeadingWord(t[3..]))
    else
      Parsed(false, "", "")
  }

  /** `parseCodeBlock(text)`: a message is a code block when, once
      trimmed, it opens and closes with non-overlapping fences. */
  function ParseCodeBlock(text: string): (r: Parsed)
    ensures r.isCode <==> |Trim(text)| >= 6 && Trim(text)[..3] == Fence && Trim(text)[|Trim(text)| - 3..] == Fence
    ensures !r.isCode ==> r == Parsed(false, "", "")
    ensures forall i :: 0 <= i < |r.lang| ==> IsWordChar(r.lang[i])
  {
    Recognise(Trim(text))
  }

  /** Whitespace around a message never changes how it is rendered. */
  lemma ParsePadding(a: string, text: string, b: string)
    requires AllSpace(a) && AllSpace(b)
    ensures ParseCodeBlock(a + text + b) == ParseCodeBlock(text)
  {
    TrimPadding(a, text, b);
  }

  /** The shape the regular expression describes: a fence, a language made
      of word characters, an optional newline, a body, a closing fence. */
  ghost predicate Fenced(t: string, lang: string, newline: bool, body: string) {
    (forall i :: 0 <= i < |lang| ==> IsWordChar(lang[i]))
    && t == Fence + (lang + ((if newline then "\n" else "") + (body + Fence)))
  }

  /** Soundness: a recognised code block has that shape, with the reported
      language as the whole run of word characters after the opening fence
      and the reported code as the trimmed body. */
  lemma RecogniseSound(t: string)
    requires Recognise(t).isCode
    ensures var r := Recognise(t);
            3 + |r.lang| < |t| && !IsWordChar(t[3 + |r.lang|])
            && exists newline: bool, body :: Fenced(t, r.lang, newline, body) && r.code == Trim(body)
  {
    var lang := LeadingWord(t[3..]);
    var p := BodyStart(t);
    assert t[3..][|lang|] == t[3 + |lang|];
    FencedParts(t);
    assert Fenced(t, lang, p == 3 + |lang| + 1, t[p..|t| - 3]);
  }

  /** A text with fences has the shape, read at the positions the regular
      expression picks. */
  lemma FencedParts(t: string)
    requires HasFences(t)
    ensures var k := 3 + |LeadingWord(t[3..])|;
            Fenced(t, LeadingWord(t[3..]), BodyStart(t) == k + 1, t[BodyStart(t)..|t| - 3])
  {
    var lang := LeadingWord(t[3..]);
    var k := 3 + |lang|;
    var p := BodyStart(t);
    var nl: string := if p == k + 1 then "\n" else "";
    assert t[3..k] == lang;
    assert t[k..p] == nl by {
      if p == k + 1 { assert t[k] == '\n' && t[k..p] == [t[k]]; }
    }
    Split(t, k, p);
  }

  /** Cutting a fenced text at the end of the language and at the start of
      the body. */
  lemma Split(t: string, k: nat, p: nat)
    requires HasFences(t) && 3 <= k <= p <= |t| - 3
    ensures t == Fence + (t[3..k] + (t[k..p] + (t[p..|t| - 3] + Fence)))
  {
    assert t[p..] == t[p..|t| - 3] + t[|t| - 3..];
    assert t[k..] == t[k..p] + t[p..];
    assert t[3..] == t[3..k] + t[k..];
    assert t == t[..3] + t[3..];
  }

  /** Completeness: every text of that shape is recognised. */
  lemma RecogniseComplete(t: string, lang: string, newline: bool, body: string)
    requires Fenced(t, lang, newline, body)
    ensures Recognise(t).isCode
  {
    assert t[..3] == Fence;
    assert t[|t| - 3..] == Fence;
  }

  /** The decomposition the regular expression picks: when the language is
      the whole run of word characters and the newline is taken whenever
      there is one, the result is exactly that language and the trimmed body. */
  lemma RecogniseExact(t: string, lang: string, newline: bool, body: string)
    requires Fenced(t, lang, newline, body)
    requires !newline ==> body == [] || (!IsWordChar(body[0]) && body[0] != '\n')
    ensures Recognise(t) == Parsed(true, Trim(body), lang)
  {
    ExactLanguage(t, lang, newline, body);
    ExactBody(t, lang, if newline then "\n" else "", body);
    RecogniseFrom(t, lang, body);
  }

  lemma RecogniseFrom(t: string, lang: string, body: string)
    requires HasFences(t) && LeadingWord(t[3..]) == lang && t[BodyStart(t)..|t| - 3] == body
    ensures Recognise(t) == Parsed(true, Trim(body), lang)
  {
  }

  /** The language the regular expression captures is `lang`. */
  lemma ExactLanguage(t: string, lang: string, newline: bool, body: string)
    requires Fenced(t, lang, newline, body)
    requires !newline ==> body == [] || (!IsWordChar(body[0]) && body[0] != '\n')
    ensures HasFences(t) && LeadingWord(t[3..]) == lang
  {
    var nl: string := if newline then "\n" else "";
    RecogniseComplete(t, lang, newline, body);
    var rest := t[3..];
    assert rest == lang + (nl + (body + Fence));
    assert rest[|lang|] == (if newline then '\n' else if body == [] then '`' else body[0]);
    LeadingWordExact(rest, lang);
  }

  /** The body the regular expression captures is `body`. */
  lemma ExactBody(t: string, lang: string, nl: string, body: string)
    requires HasFences(t) && LeadingWord(t[3..]) == lang
    requires t == Fence + (lang + (nl + (body + Fence)))
    requires nl == "\n" || (nl == [] && (body == [] || body[0] != '\n'))
    ensures t[BodyStart(t)..|t| - 3] == body
  {
    var k := 3 + |lang|;
    var rest := body + Fence;
    assert t[k..] == nl + rest;
    assert t[k] == if nl != [] then '\n' else rest[0];
    assert BodyStart(t) == k + |nl|;
    assert t[k + |nl|..] == rest;
    assert t[k + |nl|..|t| - 3] == rest[..|body|];
  }

  /** A run of word characters followed by a non-word character is the whole
      leading word. */
  lemma {:induction false} LeadingWordExact(s: string, w: string)
    requires |w| < |s| && w == s[..|w|] && !IsWordChar(s[|w|])
    requires forall i :: 0 <= i < |w| ==> IsWordChar(w[i])
    ensures LeadingWord(s) == w
  {
    if w != [] {
      assert s[0] == w[0];
      LeadingWordExact(s[1..], w[1..]);
    }
  }

  /** A language glued to the closing fence is read as the language, with no code. */
  lemma LanguageOnly()
    ensures ParseCodeBlock("```jsfoo```") == Parsed(true, "", "jsfoo")
  {
    var text := "```jsfoo```";
    TrimNoop(text);
    RecogniseExact(text, "jsfoo", false, "");
    TrimNoop("");
  }

  /** Six backticks are an empty code block. */
  lemma EmptyBlock()
    ensures ParseCodeBlock("``````") == Parsed(true, "", "")
  {
    var text := "``````";
    TrimNoop(text);
    RecogniseExact(text, "", false, "");
    TrimNoop("");
  }

  /** The usual form: language, newline, code, closing fence on its own line. */
  lemma TypicalBlock()
    ensures ParseCodeBlock("```js\nlet x = 1;\n```") == Parsed(true, "let x = 1;", "js")
  {
    var text := "```js\nlet x = 1;\n```";
    TrimNoop(text);
    TypicalShape();
    TypicalBody();
  }

  lemma TypicalShape()
    ensures Recognise("```js\nlet x = 1;\n```") == Parsed(true, Trim("let x = 1;\n"), "js")
  {
    var text, body := "```js\nlet x = 1;\n```", "let x = 1;\n";
    assert text == Fence + ("js" + ("\n" + (body + Fence)));
    RecogniseExact(text, "js", true, body);
  }

  lemma TypicalBody()
    ensures Trim("let x = 1;\n") == "let x = 1;"
  {
    var code := "let x = 1;";
    assert "" + code + "\n" == "let x = 1;\n";
    TrimPadding("", code, "\n");
    TrimNoop(code);
  }
}

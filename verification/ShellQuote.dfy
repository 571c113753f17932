/** The mail client's command line, and the words that a POSIX shell finds in it.

    The tokenizer follows sections 2.2.1, 2.2.2 and 2.3 of the POSIX.1-2017 Shell Command Language.  It answers None for
    what it does not cover: an unterminated quotation, and any other special character left unquoted. */
module ShellQuote {
  import opened Wrappers

  // ---------- The program ----------

  /** The characters between the enclosing quotes: every quote is left, escaped and entered again. */
  function Quoted(s: string): string {
    if s == "" then "" else Quoted(s[..|s| - 1]) + if s[|s| - 1] == '\'' then "'\\''" else [s[|s| - 1]]
  }

  method Quote(s: string) returns (out: string)
    ensures out == "'" + Quoted(s) + "'"
  {
    out := "'";
    for i := 0 to |s|
      invariant out == "'" + Quoted(s[..i])
    {
      var c := s[i];
      assert s[..i + 1][..i] == s[..i];
      if c == '\'' {
        out := out + "'\\''";
      } else {
        out := out + [c];
      }
    }
    assert s[..|s|] == s;
    out := out + "'";
  }

  function Command(to: string, subject: string): string {
    "/usr/bin/mail -s " + ("'" + Quoted(subject) + "'" + (" " + ("'" + Quoted(to) + "'" + " 2>/dev/null")))
  }

  /** The command that deliver builds. */
  method BuildCommand(to: string, subject: string) returns (cmd: string)
    ensures cmd == Command(to, subject)
  {
    var s := Quote(subject);
    var t := Quote(to);
    cmd := "/usr/bin/mail -s " + s + " " + t + " 2>/dev/null";
    assert cmd == Command(to, subject);
  }

  /** What popen sees of c_str(). */
  function CutAtNul(s: string): string {
    if s == "" || s[0] == '\0' then "" else [s[0]] + CutAtNul(s[1..])
  }

  // ---------- The shell ----------

  datatype Token = Word(text: string) | IoNumber(digits: string) | Output

  /** The word under way, its quotes removed. */
  datatype Partial = Nothing | Partial(text: string, quoted: bool)

  function Add(w: Partial, text: string, quoted: bool): Partial {
    if w.Nothing? then Partial(text, quoted) else Partial(w.text + text, w.quoted || quoted)
  }

  function Close(w: Partial): seq<Token> {
    if w.Nothing? then [] else [Word(w.text)]
  }

  predicate IsNumber(s: string) {
    s != "" && forall i :: 0 <= i < |s| ==> '0' <= s[i] <= '9'
  }

  /** Section 2.10.1: unquoted digits right before a redirection operator are an IO number. */
  function CloseBeforeOutput(w: Partial): seq<Token> {
    if w.Partial? && !w.quoted && IsNumber(w.text) then [IoNumber(w.text)] else Close(w)
  }

  predicate Blank(c: char) { c == ' ' || c == '\t' }

  /** Unquoted, these quote, expand, operate, comment or assign in ways the tokenizer does not cover. */
  predicate Uncovered(c: char) {
    || c == '"' || c == '$' || c == '`' || c == '&' || c == '|' || c == ';' || c == '<' || c == '(' || c == ')'
    || c == '#' || c == '*' || c == '?' || c == '[' || c == ']' || c == '~' || c == '=' || c == '{' || c == '}'
    || c == '!' || c == '\n' || c == '\0'
  }

  predicate Plain(c: char) {
    !Blank(c) && !Uncovered(c) && c != '\\' && c != '\'' && c != '>'
  }

  ghost predicate IsPlain(word: string) {
    word != "" && forall i :: 0 <= i < |word| ==> Plain(word[i])
  }

  /** Section 2.2.2: the offset of the next single quote. */
  function QuoteEnd(s: string): (r: Option<nat>)
    ensures r.Some? ==> r.value < |s| && s[r.value] == '\'' && forall i :: 0 <= i < r.value ==> s[i] != '\''
  {
    if s == "" then None
    else if s[0] == '\'' then Some(0)
    else
      var rest := QuoteEnd(s[1..]);
      if rest.None? then None else Some(rest.value + 1)
  }

  function Then(first: seq<Token>, rest: Option<seq<Token>>): Option<seq<Token>> {
    if rest.None? then None else Some(first + rest.value)
  }

  /** The tokens of `s`, with `w` under way. */
  function Tokens(s: string, w: Partial): Option<seq<Token>>
    decreases |s|
  {
    if s == "" then Some(Close(w))
    else
      var c, rest := s[0], s[1..];
      if c == '\\' then
        if rest == "" then None
        else if rest[0] == '\n' then Tokens(rest[1..], w)
        else Tokens(rest[1..], Add(w, [rest[0]], true))
      else if c == '\'' then
        var end := QuoteEnd(rest);
        if end.None? then None else Tokens(rest[end.value + 1..], Add(w, rest[..end.value], true))
      else if Blank(c) then Then(Close(w), Tokens(rest, Nothing))
      else if c == '>' then
        if rest != "" && rest[0] in ">&|\\" then None else Then(CloseBeforeOutput(w) + [Output], Tokens(rest, Nothing))
      else if Uncovered(c) then None
      else Tokens(rest, Add(w, [c], false))
  }

  // ---------- What the shell makes of it ----------

  lemma {:induction false} PlainWord(word: string, after: string, w: Partial)
    requires IsPlain(word)
    ensures Tokens(word + after, w) == Tokens(after, Add(w, word, false))
  {
    var rest := word[1..];
    assert (word + after)[1..] == rest + after;
    if rest == "" {
      assert rest + after == after && word == [word[0]];
    } else {
      PlainWord(rest, after, Add(w, [word[0]], false));
      assert [word[0]] + rest == word;
      assert w.Partial? ==> w.text + [word[0]] + rest == w.text + word;
    }
  }

  lemma QuoteEndAt(s: string, k: nat)
    requires k < |s| && s[k] == '\'' && forall i :: 0 <= i < k ==> s[i] != '\''
    ensures QuoteEnd(s) == Some(k)
  {
    if k > 0 {
      QuoteEndAt(s[1..], k - 1);
    }
  }

  lemma NoQuoteEnd(s: string)
    requires '\'' !in s
    ensures QuoteEnd(s) == None
  {
  }

  lemma {:induction false} QuotedPlain(s: string)
    requires '\'' !in s
    ensures Quoted(s) == s
  {
    if s != "" {
      var init, last := s[..|s| - 1], s[|s| - 1];
      assert s == init + [last];
      assert last in s;
      QuotedPlain(init);
    }
  }

  lemma {:induction false} QuotedConcat(a: string, b: string)
    ensures Quoted(a + b) == Quoted(a) + Quoted(b)
  {
    if b == "" {
      assert a + b == a;
    } else {
      assert (a + b)[..|a + b| - 1] == a + b[..|b| - 1];
      QuotedConcat(a, b[..|b| - 1]);
    }
  }

  /** A quote in `s` is the first one after some quote-free text. */
  lemma FirstQuote(s: string) returns (k: nat)
    requires '\'' in s
    ensures k < |s| && s[k] == '\'' && '\'' !in s[..k]
    ensures Quoted(s) == s[..k] + "'\\''" + Quoted(s[k + 1..])
  {
    hide Quoted;
    k := 0;
    while s[k] != '\''
      invariant k < |s| && '\'' !in s[..k]
      decreases |s| - k
    {
      k := k + 1;
    }
    var a, b := s[..k], s[k + 1..];
    assert s == a + ("'" + b);
    QuotedPlain(a);
    QuotedConcat(a, "'" + b);
    QuotedConcat("'", b);
    QuotedQuote();
    assert a + ("'\\''" + Quoted(b)) == a + "'\\''" + Quoted(b);
  }

  lemma QuotedQuote()
    ensures Quoted("'") == "'\\''" && Quoted("\0") == "\0"
  {
    assert "'"[..0] == "" && "\0"[..0] == "";
  }

  /** A quotation without quotes in it. */
  lemma SimpleQuotation(a: string, after: string, w: Partial)
    requires '\'' !in a
    ensures Tokens("'" + a + "'" + after, w) == Tokens(after, Add(w, a, true))
  {
    var s := "'" + a + "'" + after;
    var rest := s[1..];
    assert rest == a + "'" + after;
    QuoteEndAt(rest, |a|);
    assert rest[..|a|] == a && rest[|a| + 1..] == after;
  }

  lemma EscapedQuote(after: string, w: Partial)
    ensures Tokens("\\'" + after, w) == Tokens(after, Add(w, "'", true))
  {
    var s := "\\'" + after;
    assert s[1..][0] == '\'' && s[1..][1..] == after;
  }

  lemma AddMore(w: Partial, a: string, b: string)
    ensures Add(Add(w, a, true), b, true) == Add(w, a + b, true)
  {
    if w.Partial? {
      assert w.text + a + b == w.text + (a + b);
    }
  }

  /** The shell undoes the quotation of any string, whatever stands before and after it. */
  lemma {:induction false} QuotationIsRead(s: string, after: string, w: Partial)
    ensures Tokens("'" + Quoted(s) + "'" + after, w) == Tokens(after, Add(w, s, true))
    decreases |s|
  {
    hide Tokens;
    if '\'' !in s {
      QuotedPlain(s);
      SimpleQuotation(s, after, w);
    } else {
      var k := FirstQuote(s);
      var a, b := s[..k], s[k + 1..];
      var tail := "'" + Quoted(b) + "'" + after;
      assert "'" + Quoted(s) + "'" + after == "'" + a + "'" + ("\\'" + tail);
      SimpleQuotation(a, "\\'" + tail, w);
      EscapedQuote(tail, Add(w, a, true));
      QuotationIsRead(b, after, Add(Add(w, a, true), "'", true));
      AddMore(w, a, "'");
      AddMore(w, a + "'", b);
      assert a + "'" + b == s;
    }
  }

  /** A quotation that is cut before its closing quote is never complete. */
  lemma {:induction false} CutQuotationFails(s: string, w: Partial)
    ensures Tokens("'" + Quoted(s), w) == None
    decreases |s|
  {
    if '\'' !in s {
      QuotedPlain(s);
      assert ("'" + s)[1..] == s;
      NoQuoteEnd(s);
    } else {
      hide Tokens;
      var k := FirstQuote(s);
      var a, b := s[..k], s[k + 1..];
      var tail := "'" + Quoted(b);
      assert "'" + Quoted(s) == "'" + a + "'" + ("\\'" + tail);
      SimpleQuotation(a, "\\'" + tail, w);
      EscapedQuote(tail, Add(w, a, true));
      CutQuotationFails(b, Add(Add(w, a, true), "'", true));
    }
  }

  lemma BlankEnds(after: string, w: Partial)
    ensures Tokens(" " + after, w) == Then(Close(w), Tokens(after, Nothing))
  {
    assert (" " + after)[1..] == after;
  }

  lemma OutputEnds(after: string, w: Partial)
    requires after != "" && after[0] == '/'
    ensures Tokens(">" + after, w) == Then(CloseBeforeOutput(w) + [Output], Tokens(after, Nothing))
  {
    assert (">" + after)[1..] == after;
  }

  lemma TwoWords(a: string, b: string, after: string)
    requires IsPlain(a) && IsPlain(b)
    ensures Tokens(a + (" " + (b + (" " + after))), Nothing) == Then([Word(a), Word(b)], Tokens(after, Nothing))
  {
    hide Tokens;
    PlainWord(a, " " + (b + (" " + after)), Nothing);
    BlankEnds(b + (" " + after), Partial(a, false));
    PlainWord(b, " " + after, Nothing);
    BlankEnds(after, Partial(b, false));
    ThenThen([Word(a)], [Word(b)], Tokens(after, Nothing));
    assert [Word(a)] + [Word(b)] == [Word(a), Word(b)];
  }

  lemma PlainName()
    ensures IsPlain("/usr/bin/mail") && IsPlain("-s")
  {
  }

  lemma NameAndOption(after: string)
    ensures "/usr/bin/mail -s " + after == "/usr/bin/mail" + (" " + ("-s" + (" " + after)))
  {
  }

  /** The command name and its option. */
  lemma CommandName(after: string)
    ensures Tokens("/usr/bin/mail -s " + after, Nothing) ==
            Then([Word("/usr/bin/mail"), Word("-s")], Tokens(after, Nothing))
  {
    hide Tokens;
    NameAndOption(after);
    PlainName();
    hide IsPlain;
    TwoWords("/usr/bin/mail", "-s", after);
  }

  lemma ThenThen(a: seq<Token>, b: seq<Token>, rest: Option<seq<Token>>)
    ensures Then(a, Then(b, rest)) == Then(a + b, rest)
  {
    if rest.Some? {
      assert a + (b + rest.value) == a + b + rest.value;
    }
  }

  lemma LastWord(word: string)
    requires IsPlain(word)
    ensures Tokens(word, Nothing) == Some([Word(word)])
  {
    assert word + "" == word;
    PlainWord(word, "", Nothing);
    assert Tokens("", Partial(word, false)) == Some([Word(word)]);
  }

  lemma Redirected(digits: string, file: string)
    requires IsNumber(digits) && IsPlain(digits) && IsPlain(file) && file[0] == '/'
    ensures Tokens(digits + (">" + file), Nothing) == Some([IoNumber(digits), Output, Word(file)])
  {
    hide Tokens;
    PlainWord(digits, ">" + file, Nothing);
    OutputEnds(file, Partial(digits, false));
    LastWord(file);
    assert [IoNumber(digits)] + [Output] + [Word(file)] == [IoNumber(digits), Output, Word(file)];
  }

  /** The redirection of standard error. */
  lemma Redirection()
    ensures Tokens("2>/dev/null", Nothing) == Some([IoNumber("2"), Output, Word("/dev/null")])
  {
    hide Tokens;
    assert "2>/dev/null" == "2" + (">" + "/dev/null");
    Redirected("2", "/dev/null");
  }

  function Expected(to: string, subject: string): seq<Token> {
    [Word("/usr/bin/mail"), Word("-s"), Word(subject), Word(to), IoNumber("2"), Output, Word("/dev/null")]
  }

  lemma WholeCommand(to: string, subject: string)
    ensures Tokens(Command(to, subject), Nothing) == Some(Expected(to, subject))
  {
    hide Tokens;
    var third := "'" + Quoted(to) + "'" + " 2>/dev/null";
    var second := "'" + Quoted(subject) + "'" + (" " + third);
    CommandName(second);
    QuotationIsRead(subject, " " + third, Nothing);
    BlankEnds(third, Partial(subject, true));
    QuotationIsRead(to, " 2>/dev/null", Nothing);
    assert " 2>/dev/null" == " " + "2>/dev/null";
    BlankEnds("2>/dev/null", Partial(to, true));
    Redirection();
    var redirection := Tokens("2>/dev/null", Nothing);
    var name := [Word("/usr/bin/mail"), Word("-s")];
    ThenThen([Word(subject)], [Word(to)], redirection);
    ThenThen(name, [Word(subject)] + [Word(to)], redirection);
    assert name + ([Word(subject)] + [Word(to)]) + redirection.value == Expected(to, subject);
  }

  // ---------- NUL ----------

  lemma CutWhole(s: string)
    requires '\0' !in s
    ensures CutAtNul(s) == s
  {
  }

  lemma {:induction false} CutConcat(a: string, b: string)
    requires '\0' !in a
    ensures CutAtNul(a + b) == a + CutAtNul(b)
  {
    if a == "" {
      assert a + b == b;
    } else {
      assert (a + b)[1..] == a[1..] + b;
      CutConcat(a[1..], b);
      assert [a[0]] + (a[1..] + CutAtNul(b)) == a + CutAtNul(b);
    }
  }

  lemma QuotedHasNul(s: string)
    ensures '\0' in Quoted(s) <==> '\0' in s
  {
    if s != "" {
      QuotedHasNul(s[..|s| - 1]);
      assert s == s[..|s| - 1] + [s[|s| - 1]];
    }
  }

  /** A NUL in `s` is the first one after some NUL-free text. */
  lemma FirstNul(s: string) returns (k: nat)
    requires '\0' in s
    ensures k < |s| && '\0' !in s[..k] && Quoted(s) == Quoted(s[..k]) + ("\0" + Quoted(s[k + 1..]))
  {
    hide Quoted;
    k := 0;
    while s[k] != '\0'
      invariant k < |s| && '\0' !in s[..k]
      decreases |s| - k
    {
      k := k + 1;
    }
    assert s == s[..k] + ("\0" + s[k + 1..]);
    QuotedConcat(s[..k], "\0" + s[k + 1..]);
    QuotedConcat("\0", s[k + 1..]);
    QuotedQuote();
  }

  /** A quotation of a string with a NUL is cut inside its quotes. */
  lemma CutInside(s: string, after: string) returns (k: nat)
    requires '\0' in s
    ensures k < |s| && CutAtNul("'" + Quoted(s) + after) == "'" + Quoted(s[..k])
  {
    hide Quoted;
    k := FirstNul(s);
    QuotedHasNul(s[..k]);
    var head, tail := "'" + Quoted(s[..k]), "\0" + (Quoted(s[k + 1..]) + after);
    assert "'" + Quoted(s) + after == head + tail;
    CutConcat(head, tail);
    assert CutAtNul(tail) == "";
  }

  lemma NulInSubject(to: string, subject: string)
    requires '\0' in subject
    ensures Tokens(CutAtNul(Command(to, subject)), Nothing) == None
  {
    hide Tokens, CutAtNul, Quoted;
    var third := "'" + Quoted(to) + "'" + " 2>/dev/null";
    var k := CutInside(subject, "'" + (" " + third));
    var second := "'" + Quoted(subject) + ("'" + (" " + third));
    assert Command(to, subject) == "/usr/bin/mail -s " + second;
    CutConcat("/usr/bin/mail -s ", second);
    CommandName("'" + Quoted(subject[..k]));
    CutQuotationFails(subject[..k], Nothing);
  }

  lemma NulInAddress(to: string, subject: string)
    requires '\0' !in subject && '\0' in to
    ensures Tokens(CutAtNul(Command(to, subject)), Nothing) == None
  {
    hide Tokens, CutAtNul, Quoted;
    var k := CutInside(to, "'" + " 2>/dev/null");
    var cut, third := "'" + Quoted(to[..k]), "'" + Quoted(to) + ("'" + " 2>/dev/null");
    var quoted := "'" + Quoted(subject) + "'";
    QuotedHasNul(subject);
    assert Command(to, subject) == "/usr/bin/mail -s " + (quoted + (" " + third));
    CutConcat("/usr/bin/mail -s ", quoted + (" " + third));
    CutConcat(quoted, " " + third);
    CutConcat(" ", third);
    CommandName(quoted + (" " + cut));
    QuotationIsRead(subject, " " + cut, Nothing);
    BlankEnds(cut, Partial(subject, true));
    CutQuotationFails(to[..k], Nothing);
  }

  lemma NoNul(to: string, subject: string)
    requires '\0' !in subject && '\0' !in to
    ensures CutAtNul(Command(to, subject)) == Command(to, subject)
  {
    hide Quoted, CutAtNul;
    QuotedHasNul(subject);
    QuotedHasNul(to);
    CutWhole(Command(to, subject));
  }

  /** The shell reads the intended command, with the subject and the address as single words, exactly when neither holds
      a NUL; with one it reads no command at all. */
  lemma ShellReadsTheCommand(to: string, subject: string)
    ensures Tokens(CutAtNul(Command(to, subject)), Nothing) == Some(Expected(to, subject)) <==>
            '\0' !in subject && '\0' !in to
    ensures '\0' in subject || '\0' in to ==> Tokens(CutAtNul(Command(to, subject)), Nothing) == None
  {
    hide Tokens, CutAtNul, Command, Expected;
    if '\0' in subject {
      NulInSubject(to, subject);
    } else if '\0' in to {
      NulInAddress(to, subject);
    } else {
      NoNul(to, subject);
      WholeCommand(to, subject);
    }
  }
}

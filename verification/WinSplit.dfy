/** Splitting a Windows command line (win_split in tools/iwyu_tool.py), by the rules of
  "Parsing C++ Command-Line Arguments" in the Microsoft C++ documentation. */
module WinSplit {

  // ---------- The scanner ----------

  /** The locals of split_iter and the arguments it has yielded. */
  datatype Scan = Scan(inQuotes: bool, backslashes: nat, arg: string, out: seq<string>)

  const START := Scan(false, 0, "", [])

  function Slashes(n: nat): (r: string)
    ensures |r| == n && forall i :: 0 <= i < n ==> r[i] == '\\'
  {
    seq(n, _ => '\\')
  }

  predicate Blank(c: char) {
    c == ' ' || c == '\t'
  }

  function Step(st: Scan, c: char): Scan {
    if c == '\\' then st.(backslashes := st.backslashes + 1)
    else if c == '"' then
      var arg := st.arg + Slashes(st.backslashes / 2);
      if st.backslashes % 2 == 1 then st.(arg := arg + [c], backslashes := 0)
      else st.(arg := arg, inQuotes := !st.inQuotes, backslashes := 0)
    else if Blank(c) && !st.inQuotes then
      var arg := st.arg + Slashes(st.backslashes);
      st.(out := if arg == "" then st.out else st.out + [arg], arg := "", backslashes := 0)
    else st.(arg := st.arg + Slashes(st.backslashes) + [c], backslashes := 0)
  }

  function Run(st: Scan, s: string): Scan
    decreases |s|
  {
    if s == "" then st else Run(Step(st, s[0]), s[1..])
  }

  /** What is yielded after the last character: nothing for an empty argument, even if
    backslashes are still buffered. */
  function Flush(st: Scan): seq<string> {
    if st.arg == "" then st.out else st.out + [st.arg + Slashes(st.backslashes)]
  }

  function Split(s: string): seq<string> {
    Flush(Run(START, s))
  }

  method WinSplit(cmdline: string) returns (args: seq<string>)
    ensures args == Split(cmdline)
    ensures forall a :: a in args ==> a != ""
  {
    var inQuotes, backslashes, arg := false, 0, "";
    args := [];
    for i := 0 to |cmdline|
      invariant backslashes >= 0
      invariant Run(Scan(inQuotes, backslashes, arg, args), cmdline[i..]) == Run(START, cmdline)
      invariant forall a :: a in args ==> a != ""
    {
      var c := cmdline[i];
      assert cmdline[i..][1..] == cmdline[i + 1..];
      if c == '\\' {
        backslashes := backslashes + 1;
      } else if c == '"' {
        arg := arg + Slashes(backslashes / 2);
        if backslashes % 2 == 1 {
          arg := arg + [c];
        } else {
          inQuotes := !inQuotes;
        }
        backslashes := 0;
      } else if (c == ' ' || c == '\t') && !inQuotes {
        arg := arg + Slashes(backslashes);
        if arg != "" {
          args := args + [arg];
          arg := "";
        }
        backslashes := 0;
      } else {
        arg := arg + Slashes(backslashes);
        arg := arg + [c];
        backslashes := 0;
      }
    }
    if arg != "" {
      arg := arg + Slashes(backslashes);
      args := args + [arg];
    }
  }

  // ---------- Scanning in parts ----------

  lemma {:induction false} RunAppend(st: Scan, s: string, t: string)
    ensures Run(st, s + t) == Run(Run(st, s), t)
    decreases |s|
  {
    if s == "" {
      assert s + t == t;
    } else {
      assert (s + t)[1..] == s[1..] + t;
      RunAppend(Step(st, s[0]), s[1..], t);
    }
  }

  /** Arguments already yielded only stand in front. */
  lemma {:induction false} OutInFront(st: Scan, before: seq<string>, s: string)
    ensures Run(st.(out := before + st.out), s) ==
            Run(st, s).(out := before + Run(st, s).out)
    decreases |s|
  {
    if s != "" {
      var next := Step(st, s[0]);
      assert Step(st.(out := before + st.out), s[0]) == next.(out := before + next.out);
      OutInFront(next, before, s[1..]);
    }
  }

  /** Backslashes buffered for an empty argument: the end of the line drops them. */
  function Dropped(s: string): seq<string> {
    var end := Run(START, s);
    if end.arg == "" && end.backslashes > 0 then [Slashes(end.backslashes)] else []
  }

  /** What a blank makes of the line so far. */
  function Yielded(s: string): seq<string> {
    Split(s) + Dropped(s)
  }

  lemma BlankYields(s: string, blank: char)
    requires Blank(blank) && !Run(START, s).inQuotes
    ensures Run(START, s + [blank]) == START.(out := Yielded(s))
  {
    var end := Run(START, s);
    RunAppend(START, s, [blank]);
    assert [blank][1..] == "";
    assert Run(START, s + [blank]) == Step(end, blank);
    if end.arg == "" {
      assert end.arg + Slashes(end.backslashes) == Slashes(end.backslashes);
    }
  }

  /** The concatenation law. After a command line that ends outside quotes, a blank starts
    afresh, except that backslashes buffered for an empty argument become an argument of
    their own although the end of the line would have dropped them. */
  lemma Concatenation(s: string, blank: char, t: string)
    requires Blank(blank) && !Run(START, s).inQuotes
    ensures Split(s + [blank] + t) == Yielded(s) + Split(t)
  {
    var before := Yielded(s);
    BlankYields(s, blank);
    RunAppend(START, s + [blank], t);
    assert before + START.out == before;
    OutInFront(START, before, t);
  }

  /** Splitting commutes with concatenation at a blank exactly when nothing was dropped. */
  lemma SplitsApart(s: string, blank: char, t: string)
    requires Blank(blank) && !Run(START, s).inQuotes
    ensures Split(s + [blank] + t) == Split(s) + Split(t) <==>
            !(Run(START, s).arg == "" && Run(START, s).backslashes > 0)
  {
    Concatenation(s, blank, t);
    assert |Yielded(s)| == |Split(s)| + |Dropped(s)|;
    if Dropped(s) == [] {
      assert Yielded(s) == Split(s);
    }
  }

  // ---------- Printing a command line ----------

  /** The Microsoft quoting of what is left of an argument, with `b` backslashes pending:
    twice as many before a quote or the closing quote, as many before anything else. */
  function Quote(a: string, b: nat): string
    decreases |a|
  {
    if a == "" then Slashes(2 * b) + "\""
    else if a[0] == '\\' then Quote(a[1..], b + 1)
    else if a[0] == '"' then Slashes(2 * b + 1) + "\"" + Quote(a[1..], 0)
    else Slashes(b) + [a[0]] + Quote(a[1..], 0)
  }

  /** An argument is written in pieces with no blank between them: bare text; text in quotes
    behind `b` backslashes; a quote of its own behind `b` backslashes. */
  datatype Piece = Bare(text: string) | Quoted(b: nat, text: string) | Escaped(b: nat)

  predicate Plain(s: string) {
    forall i :: 0 <= i < |s| ==> s[i] != ' ' && s[i] != '\t' && s[i] != '"'
  }

  predicate EndsInSlash(s: string) {
    s != "" && s[|s| - 1] == '\\'
  }

  /** Text in quotes is arbitrary. Bare text has no blanks and quotes, and ends in backslashes
    only at the end of the argument: elsewhere they are counted by the next piece. */
  ghost predicate Writable(ps: seq<Piece>) {
    forall i :: 0 <= i < |ps| && ps[i].Bare? ==>
      Plain(ps[i].text) && (i < |ps| - 1 ==> !EndsInSlash(ps[i].text))
  }

  function Print(p: Piece): string {
    match p
    case Bare(a) => a
    case Quoted(b, a) => Slashes(2 * b) + "\"" + Quote(a, 0)
    case Escaped(b) => Slashes(2 * b + 1) + "\""
  }

  function PrintAll(ps: seq<Piece>): string {
    if ps == [] then "" else Print(ps[0]) + PrintAll(ps[1..])
  }

  function Text(p: Piece): string {
    match p
    case Bare(a) => a
    case Quoted(b, a) => Slashes(b) + a
    case Escaped(b) => Slashes(b) + "\""
  }

  function TextOf(ps: seq<Piece>): string {
    if ps == [] then "" else Text(ps[0]) + TextOf(ps[1..])
  }

  function Join(args: seq<seq<Piece>>, blank: char): string {
    if args == [] then ""
    else if |args| == 1 then PrintAll(args[0])
    else PrintAll(args[0]) + [blank] + Join(args[1..], blank)
  }

  function NonEmptyTexts(args: seq<seq<Piece>>): seq<string> {
    if args == [] then [] else Only(TextOf(args[0])) + NonEmptyTexts(args[1..])
  }

  function Only(text: string): seq<string> {
    if text == "" then [] else [text]
  }

  predicate OnlySlashes(s: string) {
    forall i :: 0 <= i < |s| ==> s[i] == '\\'
  }

  // ---------- Reading one printed argument ----------

  lemma {:induction false} RunSlashes(st: Scan, n: nat)
    ensures Run(st, Slashes(n)) == st.(backslashes := st.backslashes + n)
    decreases n
  {
    if n > 0 {
      assert Slashes(n)[1..] == Slashes(n - 1);
      RunSlashes(Step(st, '\\'), n - 1);
    }
  }

  lemma RunSlashesThen(st: Scan, n: nat, c: char, rest: string)
    ensures Run(st, Slashes(n) + [c] + rest) ==
            Run(Step(st.(backslashes := st.backslashes + n), c), rest)
  {
    assert Slashes(n) + [c] + rest == Slashes(n) + ([c] + rest);
    RunAppend(st, Slashes(n), [c] + rest);
    RunSlashes(st, n);
    assert ([c] + rest)[1..] == rest;
  }

  lemma {:induction false} RunQuote(a: string, b: nat, arg: string, out: seq<string>)
    ensures Run(Scan(true, 0, arg, out), Quote(a, b)) ==
            Scan(false, 0, arg + Slashes(b) + a, out)
    decreases |a|
  {
    var st := Scan(true, 0, arg, out);
    if a == "" {
      RunSlashesThen(st, 2 * b, '"', "");
      assert Quote(a, b) == Slashes(2 * b) + "\"" + "";
      assert arg + Slashes(b) + a == arg + Slashes(b);
    } else if a[0] == '\\' {
      RunQuote(a[1..], b + 1, arg, out);
      assert Slashes(b + 1) == Slashes(b) + [a[0]];
      assert Slashes(b + 1) + a[1..] == Slashes(b) + a;
      assert arg + Slashes(b + 1) + a[1..] == arg + Slashes(b) + a;
    } else {
      var n := if a[0] == '"' then 2 * b + 1 else b;
      var read := arg + Slashes(b) + [a[0]];
      RunSlashesThen(st, n, a[0], Quote(a[1..], 0));
      assert Step(st.(backslashes := n), a[0]) == Scan(true, 0, read, out);
      RunQuote(a[1..], 0, read, out);
      assert read + Slashes(0) + a[1..] == arg + Slashes(b) + a;
    }
  }

  /** Text without blanks and quotes is read literally, up to the backslashes it ends in. */
  lemma {:induction false} RunPlain(st: Scan, a: string)
    requires Plain(a)
    ensures var end := Run(st, a);
            && end.inQuotes == st.inQuotes && end.out == st.out
            && end.arg + Slashes(end.backslashes) == st.arg + Slashes(st.backslashes) + a
            && (end.arg == "" <==> st.arg == "" && OnlySlashes(a))
            && (!EndsInSlash(a) ==> end.backslashes == if a == "" then st.backslashes else 0)
    decreases |a|
  {
    if a == "" {
      assert st.arg + Slashes(st.backslashes) + a == st.arg + Slashes(st.backslashes);
    } else {
      var next := Step(st, a[0]);
      RunPlain(next, a[1..]);
      if a[0] == '\\' {
        assert Slashes(st.backslashes + 1) == Slashes(st.backslashes) + [a[0]];
        assert Slashes(st.backslashes + 1) + a[1..] == Slashes(st.backslashes) + a;
        assert OnlySlashes(a) <==> OnlySlashes(a[1..]);
      } else {
        assert Slashes(st.backslashes) + [a[0]] + a[1..] == Slashes(st.backslashes) + a;
        assert next.arg + Slashes(0) + a[1..] == st.arg + Slashes(st.backslashes) + a;
      }
    }
  }

  /** A piece with a quote leaves the scanner outside quotes with nothing pending. */
  lemma RunWithQuote(p: Piece, arg: string, out: seq<string>)
    requires !p.Bare?
    ensures Run(Scan(false, 0, arg, out), Print(p)) == Scan(false, 0, arg + Text(p), out)
  {
    var st := Scan(false, 0, arg, out);
    match p
    case Quoted(b, a) =>
      RunSlashesThen(st, 2 * b, '"', Quote(a, 0));
      RunQuote(a, 0, arg + Slashes(b), out);
      assert arg + Slashes(b) + Slashes(0) + a == arg + Text(p);
    case Escaped(b) =>
      RunSlashesThen(st, 2 * b + 1, '"', "");
      assert Print(p) == Slashes(2 * b + 1) + "\"" + "";
      assert arg + Slashes(b) + "\"" == arg + Text(p);
  }

  /** Nothing of the argument is in `arg` yet when its last character has been read: it has no
    text, or only backslashes that stand bare at its end. */
  predicate HeldBack(ps: seq<Piece>) {
    ps == [] || (|ps| == 1 && ps[0].Bare? && OnlySlashes(ps[0].text)) || (Text(ps[0]) == "" && HeldBack(ps[1..]))
  }

  /** What the scanner holds outside quotes, nothing having been yielded. */
  ghost predicate HasRead(end: Scan, out: seq<string>, text: string, held: bool) {
    !end.inQuotes && end.out == out && end.arg + Slashes(end.backslashes) == text && (end.arg == "" <==> held)
  }

  lemma {:induction false} RunArgument(ps: seq<Piece>, arg: string, out: seq<string>)
    requires Writable(ps)
    ensures HasRead(Run(Scan(false, 0, arg, out), PrintAll(ps)), out, arg + TextOf(ps), arg == "" && HeldBack(ps))
    decreases |ps|
  {
    if ps == [] {
      assert arg + Slashes(0) == arg + TextOf(ps);
    } else if ps[0].Bare? && |ps| == 1 {
      RunBareLast(ps[0].text, arg, out);
      assert ps == [ps[0]];
    } else {
      RunFirst(ps, arg, out);
      FirstOf(ps, arg);
      RunArgument(ps[1..], arg + Text(ps[0]), out);
    }
  }

  lemma FirstOf(ps: seq<Piece>, arg: string)
    requires Writable(ps) && ps != [] && !(ps[0].Bare? && |ps| == 1)
    ensures Writable(ps[1..])
    ensures arg + TextOf(ps) == arg + Text(ps[0]) + TextOf(ps[1..])
    ensures arg == "" && HeldBack(ps) <==> arg + Text(ps[0]) == "" && HeldBack(ps[1..])
  {
    Associate(arg, Text(ps[0]), TextOf(ps[1..]));
    assert |arg + Text(ps[0])| == |arg| + |Text(ps[0])|;
  }

  lemma Associate(a: string, b: string, c: string)
    ensures a + (b + c) == a + b + c
  {
  }

  lemma RunBareLast(a: string, arg: string, out: seq<string>)
    requires Plain(a)
    ensures HasRead(Run(Scan(false, 0, arg, out), PrintAll([Bare(a)])), out, arg + TextOf([Bare(a)]),
                    arg == "" && HeldBack([Bare(a)]))
  {
    InFront(Bare(a), []);
    assert [Bare(a)] + [] == [Bare(a)] && a + "" == a && arg + Slashes(0) + a == arg + a;
    RunPlain(Scan(false, 0, arg, out), a);
  }

  lemma RunFirst(ps: seq<Piece>, arg: string, out: seq<string>)
    requires Writable(ps) && ps != [] && !(ps[0].Bare? && |ps| == 1)
    ensures Run(Scan(false, 0, arg, out), PrintAll(ps)) ==
            Run(Scan(false, 0, arg + Text(ps[0]), out), PrintAll(ps[1..]))
  {
    var st, p := Scan(false, 0, arg, out), ps[0];
    RunAppend(st, Print(p), PrintAll(ps[1..]));
    if p.Bare? {
      BareInside(st, p.text);
    } else {
      RunWithQuote(p, arg, out);
    }
  }

  lemma BareInside(st: Scan, a: string)
    requires Plain(a) && !EndsInSlash(a) && st.backslashes == 0
    ensures Run(st, a) == st.(arg := st.arg + a)
  {
    RunPlain(st, a);
    var end := Run(st, a);
    assert end.arg + Slashes(0) == end.arg && st.arg + Slashes(0) + a == st.arg + a;
  }

  lemma SplitArgument(ps: seq<Piece>)
    requires Writable(ps)
    ensures !Run(START, PrintAll(ps)).inQuotes
    ensures Split(PrintAll(ps)) == if HeldBack(ps) then [] else [TextOf(ps)]
    ensures Yielded(PrintAll(ps)) == Only(TextOf(ps))
  {
    RunArgument(ps, "", []);
    var end := Run(START, PrintAll(ps));
    assert "" + TextOf(ps) == TextOf(ps);
    if end.arg == "" {
      assert end.arg + Slashes(end.backslashes) == Slashes(end.backslashes);
    }
    assert [] + [TextOf(ps)] == [TextOf(ps)];
  }

  // ---------- Round trip ----------

  /** The texts that arrive: all but the empty ones and a last one that is held back. */
  function Received(args: seq<seq<Piece>>): seq<string> {
    if args == [] then []
    else if |args| == 1 then (if HeldBack(args[0]) then [] else [TextOf(args[0])])
    else Only(TextOf(args[0])) + Received(args[1..])
  }

  lemma {:induction false} SplitReceives(args: seq<seq<Piece>>, blank: char)
    requires forall ps :: ps in args ==> Writable(ps)
    requires blank == ' ' || blank == '\t'
    ensures Split(Join(args, blank)) == Received(args)
    decreases |args|
  {
    if args != [] {
      var ps, rest := args[0], args[1..];
      SplitArgument(ps);
      if |args| > 1 {
        SplitReceives(rest, blank);
        Concatenation(PrintAll(ps), blank, Join(rest, blank));
      }
    }
  }

  predicate DroppedAtEnd(ps: seq<Piece>) {
    HeldBack(ps) && TextOf(ps) != ""
  }

  /** An argument held back has no text, or is empty text and then backslashes, bare. */
  lemma {:induction false} HeldBackIs(ps: seq<Piece>)
    ensures HeldBack(ps) ==> OnlySlashes(TextOf(ps))
    ensures TextOf(ps) == "" ==> HeldBack(ps)
    ensures DroppedAtEnd(ps) ==> ps[|ps| - 1].Bare? && TextOf(ps) == ps[|ps| - 1].text
    decreases |ps|
  {
    if ps != [] {
      HeldBackIs(ps[1..]);
      assert TextOf(ps) == Text(ps[0]) + TextOf(ps[1..]);
    }
  }

  lemma {:induction false} ReceivedIs(args: seq<seq<Piece>>)
    ensures Received(args) ==
            if args != [] && DroppedAtEnd(args[|args| - 1]) then NonEmptyTexts(args[..|args| - 1])
            else NonEmptyTexts(args)
    decreases |args|
  {
    if |args| == 1 {
      ReceivedLast(args[0]);
      assert args == [args[0]] && args[..0] == [];
    } else if |args| > 1 {
      ReceivedIs(args[1..]);
      assert args[1..][..|args| - 2] == args[..|args| - 1][1..];
    }
  }

  lemma ReceivedLast(ps: seq<Piece>)
    ensures Received([ps]) == if DroppedAtEnd(ps) then [] else NonEmptyTexts([ps])
  {
    HeldBackIs(ps);
    assert [ps][1..] == [] && Only(TextOf(ps)) + [] == Only(TextOf(ps));
  }

  /** Splitting undoes printing. For any list of arguments, each of any pieces, the result is
    the list of their texts without the empty ones, and without the last argument if that
    is nothing but bare backslashes. */
  lemma SplitJoin(args: seq<seq<Piece>>, blank: char)
    requires forall ps :: ps in args ==> Writable(ps)
    requires blank == ' ' || blank == '\t'
    ensures Split(Join(args, blank)) ==
            if args != [] && DroppedAtEnd(args[|args| - 1]) then NonEmptyTexts(args[..|args| - 1])
            else NonEmptyTexts(args)
  {
    SplitReceives(args, blank);
    ReceivedIs(args);
  }

  /** A text in escaped quotes behind a name, as a string is defined on a command line. */
  function Definition(name: string, value: string): seq<Piece> {
    [Bare(name)] + ([Escaped(0)] + ([Bare(value)] + [Escaped(0)]))
  }

  lemma DefinitionIs(name: string, value: string)
    ensures PrintAll(Definition(name, value)) == name + ("\\\"" + (value + "\\\""))
    ensures TextOf(Definition(name, value)) == name + ("\"" + (value + "\""))
  {
    InFront(Bare(name), [Escaped(0)] + ([Bare(value)] + [Escaped(0)]));
    InFront(Escaped(0), [Bare(value)] + [Escaped(0)]);
    InFront(Bare(value), [Escaped(0)]);
    InFront(Escaped(0), []);
    assert [Escaped(0)] + [] == [Escaped(0)] && Slashes(1) == "\\" && Slashes(0) == "";
    assert "\\\"" + "" == "\\\"" && "\"" + "" == "\"";
  }

  /** Its quotes arrive. */
  lemma DefinedString(name: string, value: string)
    requires Plain(name) && Plain(value) && !EndsInSlash(name) && !EndsInSlash(value)
    ensures Split(name + ("\\\"" + (value + "\\\""))) == [name + ("\"" + (value + "\""))]
  {
    var ps := Definition(name, value);
    DefinitionIs(name, value);
    SplitArgument(ps);
    HeldBackIs(ps);
    assert TextOf(ps)[|name|] == '"';
  }

  lemma InFront(p: Piece, rest: seq<Piece>)
    ensures PrintAll([p] + rest) == Print(p) + PrintAll(rest) && TextOf([p] + rest) == Text(p) + TextOf(rest)
  {
    assert ([p] + rest)[1..] == rest;
  }

  function QuoteAll(args: seq<string>): (r: seq<seq<Piece>>)
    ensures |r| == |args| && forall i :: 0 <= i < |r| ==> r[i] == [Quoted(0, args[i])]
  {
    seq(|args|, i requires 0 <= i < |args| => [Quoted(0, args[i])])
  }

  /** For lists quoted throughout, over any characters at all: splitting the printed line
    returns the list exactly when it has no empty argument. */
  lemma QuotedRoundTrip(args: seq<string>)
    ensures Split(Join(QuoteAll(args), ' ')) == args <==> "" !in args
  {
    SplitJoin(QuoteAll(args), ' ');
    if args != [] {
      HeldBackIs([Quoted(0, args[|args| - 1])]);
    }
    TextsOfQuoted(args);
  }

  lemma {:induction false} TextsOfQuoted(args: seq<string>)
    ensures |NonEmptyTexts(QuoteAll(args))| <= |args|
    ensures NonEmptyTexts(QuoteAll(args)) == args <==> "" !in args
    decreases |args|
  {
    if args != [] {
      TextsOfQuoted(args[1..]);
      FirstQuoted(args);
      assert args == [args[0]] + args[1..];
    }
  }

  lemma FirstQuoted(args: seq<string>)
    requires args != []
    ensures NonEmptyTexts(QuoteAll(args)) == Only(args[0]) + NonEmptyTexts(QuoteAll(args[1..]))
  {
    assert QuoteAll(args)[1..] == QuoteAll(args[1..]);
    QuotedText(args[0]);
  }

  lemma QuotedText(a: string)
    ensures TextOf([Quoted(0, a)]) == a
  {
    InFront(Quoted(0, a), []);
    assert [Quoted(0, a)] + [] == [Quoted(0, a)] && Slashes(0) + a + "" == a;
  }

  // ---------- A quote left open ----------

  /** The inside of a quoted text whose closing quote is missing. */
  function QuoteOpen(a: string, b: nat): string
    decreases |a|
  {
    if a == "" then Slashes(b)
    else if a[0] == '\\' then QuoteOpen(a[1..], b + 1)
    else if a[0] == '"' then Slashes(2 * b + 1) + "\"" + QuoteOpen(a[1..], 0)
    else Slashes(b) + [a[0]] + QuoteOpen(a[1..], 0)
  }

  lemma {:induction false} RunQuoteOpen(a: string, b: nat, arg: string, out: seq<string>)
    ensures var end := Run(Scan(true, 0, arg, out), QuoteOpen(a, b));
            && end.inQuotes && end.out == out
            && end.arg + Slashes(end.backslashes) == arg + Slashes(b) + a
            && (end.arg == "" <==> arg == "" && OnlySlashes(a))
    decreases |a|
  {
    var st := Scan(true, 0, arg, out);
    if a == "" {
      RunSlashes(st, b);
      assert arg + Slashes(b) + a == arg + Slashes(b);
    } else if a[0] == '\\' {
      RunQuoteOpen(a[1..], b + 1, arg, out);
      assert Slashes(b + 1) == Slashes(b) + [a[0]];
      assert arg + Slashes(b + 1) + a[1..] == arg + Slashes(b) + a;
      assert OnlySlashes(a) <==> OnlySlashes(a[1..]);
    } else {
      var n := if a[0] == '"' then 2 * b + 1 else b;
      var read := arg + Slashes(b) + [a[0]];
      RunSlashesThen(st, n, a[0], QuoteOpen(a[1..], 0));
      assert Step(st.(backslashes := n), a[0]) == Scan(true, 0, read, out);
      RunQuoteOpen(a[1..], 0, read, out);
      assert read + Slashes(0) + a[1..] == arg + Slashes(b) + a;
    }
  }

  /** A line that ends inside quotes yields what the quotes hold, blanks included, up to its
    end, unless that is nothing but backslashes. */
  lemma UnclosedQuote(a: string)
    ensures Split("\"" + QuoteOpen(a, 0)) == if OnlySlashes(a) then [] else [a]
  {
    RunAppend(START, "\"", QuoteOpen(a, 0));
    assert "\""[1..] == "" && "" + Slashes(0) == "";
    assert Run(START, "\"") == Scan(true, 0, "", []);
    RunQuoteOpen(a, 0, "", []);
    assert "" + Slashes(0) + a == a;
    assert [] + [a] == [a];
  }

  // ---------- Lines without quotes ----------

  /** The maximal runs of non-blank characters, in order. */
  function Words(s: string): seq<string>
    decreases |s|
  {
    var w := FirstBlank(s);
    if w == |s| then (if s == "" then [] else [s])
    else Only(s[..w]) + Words(s[w + 1..])
  }

  function FirstBlank(s: string): (i: nat)
    ensures i <= |s| && (i < |s| ==> Blank(s[i]))
    ensures forall j :: 0 <= j < i ==> !Blank(s[j])
  {
    if s == "" || Blank(s[0]) then 0 else 1 + FirstBlank(s[1..])
  }

  /** The run of non-blanks that the line ends in is dropped if it is all backslashes. */
  predicate EndsInSlashes(s: string) {
    LastWord(s) != "" && OnlySlashes(LastWord(s))
  }

  function LastWord(s: string): string
    decreases |s|
  {
    var w := FirstBlank(s);
    if w == |s| then s else LastWord(s[w + 1..])
  }

  function AllButLast(ws: seq<string>): seq<string> {
    if ws == [] then [] else ws[..|ws| - 1]
  }

  lemma AllButLastAppend(head: seq<string>, ws: seq<string>)
    requires ws != []
    ensures AllButLast(head + ws) == head + AllButLast(ws)
  {
  }

  lemma {:induction false} EndsInWord(s: string)
    requires EndsInSlashes(s)
    ensures Words(s) != []
    decreases |s|
  {
    var w := FirstBlank(s);
    if w < |s| {
      EndsInWord(s[w + 1..]);
    }
  }

  /** A line without quotes splits into its maximal runs without blanks, minus a final run
    of backslashes only. */
  lemma {:induction false} QuoteFree(s: string)
    requires '"' !in s
    ensures Split(s) == if EndsInSlashes(s) then AllButLast(Words(s)) else Words(s)
    decreases |s|
  {
    var w := FirstBlank(s);
    if w == |s| {
      OneWord(s);
    } else {
      FirstWord(s[..w], s[w], s[w + 1..]);
      assert s == s[..w] + [s[w]] + s[w + 1..];
      QuoteFree(s[w + 1..]);
      WordsStep(s);
    }
  }

  lemma OneWord(s: string)
    requires '"' !in s && FirstBlank(s) == |s|
    ensures Split(s) == if EndsInSlashes(s) then AllButLast(Words(s)) else Words(s)
  {
    HeadWord(s);
  }

  lemma FirstWord(head: string, blank: char, rest: string)
    requires Plain(head) && Blank(blank)
    ensures Split(head + [blank] + rest) == Only(head) + Split(rest)
  {
    HeadWord(head);
    Concatenation(head, blank, rest);
  }

  lemma WordsStep(s: string)
    requires FirstBlank(s) < |s|
    ensures var w := FirstBlank(s);
            var rest, head := s[w + 1..], Only(s[..w]);
            && (EndsInSlashes(s) <==> EndsInSlashes(rest))
            && Words(s) == head + Words(rest)
            && (EndsInSlashes(s) ==> AllButLast(Words(s)) == head + AllButLast(Words(rest)))
  {
    var w := FirstBlank(s);
    var rest := s[w + 1..];
    UnfoldWords(s, w, rest);
    UnfoldLast(s, w, rest);
    if EndsInSlashes(rest) {
      EndsInWord(rest);
      AllButLastAppend(Only(s[..w]), Words(rest));
    }
  }

  lemma UnfoldWords(s: string, w: nat, rest: string)
    requires w == FirstBlank(s) < |s| && rest == s[w + 1..]
    ensures Words(s) == Only(s[..w]) + Words(rest)
  {
  }

  lemma UnfoldLast(s: string, w: nat, rest: string)
    requires w == FirstBlank(s) < |s| && rest == s[w + 1..]
    ensures LastWord(s) == LastWord(rest)
  {
  }

  lemma HeadWord(head: string)
    requires Plain(head)
    ensures !Run(START, head).inQuotes
    ensures Split(head) == if head == "" || OnlySlashes(head) then [] else [head]
    ensures Yielded(head) == Only(head)
  {
    var ps := [Bare(head)];
    assert ps[1..] == [] && head + "" == head;
    SplitArgument(ps);
  }
}

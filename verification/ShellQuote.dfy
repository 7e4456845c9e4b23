/** EscapeShellArg (core/shell_util.cpp) against the token rules of the POSIX shell. */
module ShellQuote {
  import opened Basics
  import opened Utf8
  import opened SplitLines

  const QUOTE: byte := 0x27
  const BACKSLASH: byte := 0x5C
  const TAB: byte := 0x09
  const NUL: byte := 0

  // ----- The code -----

  /** The quoted form of the bytes of an argument, without the outer quotes. */
  function Body(arg: Text): Text {
    if arg == [] then []
    else (if arg[0] == QUOTE then [QUOTE, BACKSLASH, QUOTE, QUOTE] else [arg[0]]) + Body(arg[1..])
  }

  function Quoted(arg: Text): Text {
    [QUOTE] + Body(arg) + [QUOTE]
  }

  lemma {:induction false} BodyAppend(arg: Text, c: byte)
    ensures Body(arg + [c]) == Body(arg) + if c == QUOTE then [QUOTE, BACKSLASH, QUOTE, QUOTE] else [c]
  {
    if arg == [] {
      assert [c][1..] == [];
      assert arg + [c] == [c];
    } else {
      assert (arg + [c])[1..] == arg[1..] + [c];
      BodyAppend(arg[1..], c);
    }
  }

  method EscapeShellArg(arg: Text) returns (escaped: Text)
    ensures escaped == Quoted(arg)
  {
    escaped := [QUOTE];
    for i := 0 to |arg|
      invariant escaped == [QUOTE] + Body(arg[..i])
    {
      BodyAppend(arg[..i], arg[i]);
      assert arg[..i + 1] == arg[..i] + [arg[i]];
      if arg[i] == QUOTE {
        escaped := escaped + [QUOTE, BACKSLASH, QUOTE, QUOTE];
      } else {
        escaped := escaped + [arg[i]];
      }
    }
    assert arg[..|arg|] == arg;
    escaped := escaped + [QUOTE];
  }

  /** An argument without quotes stands as it is between two. */
  lemma {:induction false} PlainBody(arg: Text)
    requires QUOTE !in arg
    ensures Body(arg) == arg
  {
    if arg != [] {
      PlainBody(arg[1..]);
    }
  }

  lemma PlainIsQuoted(arg: Text)
    requires QUOTE !in arg
    ensures Quoted(arg) == Ascii("'") + arg + Ascii("'")
  {
    PlainBody(arg);
  }

  /** A command line of quoted arguments with one blank between neighbours. */
  function Joined(args: seq<Text>): Text {
    if args == [] then []
    else if |args| == 1 then Quoted(args[0])
    else Quoted(args[0]) + [SPACE] + Joined(args[1..])
  }

  /** What the shell sees of a command passed as a C string: everything before the first NUL. */
  function CString(s: Text): Text {
    if s == [] || s[0] == NUL then [] else [s[0]] + CString(s[1..])
  }

  // ----- The shell (sections 2.2.1, 2.2.2 and 2.3 of the Shell Command Language) -----

  /** Where the tokeniser is: between tokens, in a token, inside single quotes, or behind a backslash. */
  datatype Mode =
    | Between
    | InToken(token: Text)
    | InQuotes(token: Text)
    | Escaped(token: Text, started: bool)

  /** Unquoted, these start operators, expansions, patterns, comments or double quotes. */
  predicate Special(c: byte) {
    c in Ascii("|&;<>()$`\"*?[#~") || c == NEWLINE
  }

  /**
   The tokens of a simple command. None stands for input the rules do not make such a command of: an
   open quote or a backslash at the end, or an unquoted special character.
   */
  function Tokens(s: Text, done: seq<Text>, mode: Mode): Option<seq<Text>>
    decreases |s|
  {
    if s == [] then
      match mode
      case Between => Some(done)
      case InToken(token) => Some(done + [token])
      case _ => None
    else
      var c, rest := s[0], s[1..];
      match mode
      case InQuotes(token) =>
        Tokens(rest, done, if c == QUOTE then InToken(token) else InQuotes(token + [c]))
      case Escaped(token, started) =>
        if c == NEWLINE then Tokens(rest, done, if started then InToken(token) else Between)
        else Tokens(rest, done, InToken(token + [c]))
      case Between =>
        if c == SPACE || c == TAB then Tokens(rest, done, Between)
        else if c == QUOTE then Tokens(rest, done, InQuotes([]))
        else if c == BACKSLASH then Tokens(rest, done, Escaped([], false))
        else if Special(c) then None
        else Tokens(rest, done, InToken([c]))
      case InToken(token) =>
        if c == SPACE || c == TAB then Tokens(rest, done + [token], Between)
        else if c == QUOTE then Tokens(rest, done, InQuotes(token))
        else if c == BACKSLASH then Tokens(rest, done, Escaped(token, true))
        else if Special(c) then None
        else Tokens(rest, done, InToken(token + [c]))
  }

  // ----- Round trip -----

  /** A quote in the argument leaves the quotes, is escaped, and enters them again. */
  lemma QuoteInBody(rest: Text, done: seq<Text>, token: Text)
    ensures Tokens([QUOTE, BACKSLASH, QUOTE, QUOTE] + rest, done, InQuotes(token))
         == Tokens(rest, done, InQuotes(token + [QUOTE]))
  {
    var s := [QUOTE, BACKSLASH, QUOTE, QUOTE] + rest;
    assert s[1..][1..][1..][1..] == rest;
    assert Tokens(s, done, InQuotes(token)) == Tokens(s[1..], done, InToken(token));
    assert Tokens(s[1..], done, InToken(token)) == Tokens(s[1..][1..], done, Escaped(token, true));
    assert Tokens(s[1..][1..], done, Escaped(token, true)) == Tokens(s[1..][1..][1..], done, InToken(token + [QUOTE]));
  }

  /** Inside quotes the body adds exactly the argument to the token. */
  lemma {:induction false} BodyIsRead(arg: Text, rest: Text, done: seq<Text>, token: Text)
    ensures Tokens(Body(arg) + rest, done, InQuotes(token)) == Tokens(rest, done, InQuotes(token + arg))
    decreases |arg|
  {
    if arg == [] {
      assert Body(arg) + rest == rest && token + arg == token;
    } else {
      var tail := Body(arg[1..]) + rest;
      BodyIsRead(arg[1..], rest, done, token + [arg[0]]);
      assert token + [arg[0]] + arg[1..] == token + arg;
      if arg[0] == QUOTE {
        assert Body(arg) + rest == [QUOTE, BACKSLASH, QUOTE, QUOTE] + tail;
        QuoteInBody(tail, done, token);
      } else {
        assert Body(arg) + rest == [arg[0]] + tail;
        assert ([arg[0]] + tail)[1..] == tail;
      }
    }
  }

  lemma QuotedIsRead(arg: Text, rest: Text, done: seq<Text>)
    ensures Tokens(Quoted(arg) + rest, done, Between) == Tokens(rest, done, InToken(arg))
  {
    var s := Body(arg) + ([QUOTE] + rest);
    assert Quoted(arg) + rest == [QUOTE] + s;
    assert ([QUOTE] + s)[1..] == s;
    BodyIsRead(arg, [QUOTE] + rest, done, []);
    assert [] + arg == arg;
    assert ([QUOTE] + rest)[1..] == rest;
  }

  lemma {:induction false} CStringConcat(s: Text, t: Text)
    requires NUL !in s
    ensures CString(s + t) == s + CString(t)
  {
    if s == [] {
      assert s + t == t;
    } else {
      assert (s + t)[1..] == s[1..] + t;
      CStringConcat(s[1..], t);
    }
  }

  lemma {:induction false} BodyHasNoNul(arg: Text)
    requires NUL !in arg
    ensures NUL !in Body(arg)
  {
    if arg != [] {
      BodyHasNoNul(arg[1..]);
    }
  }

  /** A NUL in the argument cuts the command off inside the quotes. */
  lemma {:induction false} CutInsideBody(arg: Text, rest: Text)
    requires NUL in arg
    ensures CString(Body(arg) + rest) == Body(CString(arg))
  {
    var tail := Body(arg[1..]) + rest;
    if arg[0] == NUL {
      assert Body(arg) + rest == [NUL] + tail;
    } else {
      CutInsideBody(arg[1..], rest);
      var front := if arg[0] == QUOTE then [QUOTE, BACKSLASH, QUOTE, QUOTE] else [arg[0]];
      assert Body(arg) + rest == front + tail;
      CStringConcat(front, tail);
      assert CString(arg)[1..] == CString(arg[1..]);
    }
  }

  lemma CutCommandFails(arg: Text, rest: Text, done: seq<Text>)
    requires NUL in arg
    ensures Tokens(CString(Quoted(arg) + rest), done, Between) == None
  {
    var s := Body(arg) + ([QUOTE] + rest);
    assert Quoted(arg) + rest == [QUOTE] + s;
    CStringConcat([QUOTE], s);
    CutInsideBody(arg, [QUOTE] + rest);
    var cut := Body(CString(arg));
    assert ([QUOTE] + cut)[1..] == cut && cut + [] == cut;
    BodyIsRead(CString(arg), [], done, []);
  }

  predicate NulFree(args: seq<Text>) {
    forall i :: 0 <= i < |args| ==> NUL !in args[i]
  }

  lemma ReadQuoted(arg: Text, rest: Text, done: seq<Text>)
    requires NUL !in arg
    ensures Tokens(CString(Quoted(arg) + rest), done, Between) == Tokens(CString(rest), done, InToken(arg))
  {
    BodyHasNoNul(arg);
    CStringConcat(Quoted(arg), rest);
    QuotedIsRead(arg, CString(rest), done);
  }

  lemma BlankEndsToken(token: Text, rest: Text, done: seq<Text>)
    ensures Tokens(CString([SPACE] + rest), done, InToken(token)) == Tokens(CString(rest), done + [token], Between)
  {
    assert ([SPACE] + rest)[1..] == rest;
    assert CString([SPACE] + rest) == [SPACE] + CString(rest);
    assert ([SPACE] + CString(rest))[1..] == CString(rest);
  }

  lemma ReadFirst(args: seq<Text>, done: seq<Text>)
    requires args != [] && NUL !in args[0]
    ensures Tokens(CString(Joined(args)), done, Between)
         == if |args| == 1 then Some(done + [args[0]])
            else Tokens(CString(Joined(args[1..])), done + [args[0]], Between)
  {
    if |args| == 1 {
      assert Joined(args) == Quoted(args[0]) + [];
      ReadQuoted(args[0], [], done);
    } else {
      var rest := Joined(args[1..]);
      assert Joined(args) == Quoted(args[0]) + ([SPACE] + rest);
      ReadQuoted(args[0], [SPACE] + rest, done);
      BlankEndsToken(args[0], rest, done);
    }
  }

  lemma {:induction false} ReadAll(args: seq<Text>, done: seq<Text>)
    ensures Tokens(CString(Joined(args)), done, Between) == if NulFree(args) then Some(done + args) else None
    decreases |args|
  {
    if args == [] {
      assert done + args == done;
    } else if NUL in args[0] {
      var rest := if |args| == 1 then [] else [SPACE] + Joined(args[1..]);
      assert Joined(args) == Quoted(args[0]) + rest;
      CutCommandFails(args[0], rest, done);
    } else {
      ReadFirst(args, done);
      ReadAll(args[1..], done + [args[0]]);
      assert done + [args[0]] + args[1..] == done + args;
      assert NulFree(args) <==> NulFree(args[1..]) by {
        assert forall i :: 0 <= i < |args[1..]| ==> args[1..][i] == args[i + 1];
        assert NulFree(args[1..]) ==> forall i :: 1 <= i < |args| ==> args[i] == args[1..][i - 1];
      }
    }
  }

  /**
   The shell reads the quoted arguments back as exactly the list that was quoted, empty arguments
   and quotes included, if and only if none of them contains a NUL byte.
   */
  lemma QuotingRoundTrips(args: seq<Text>)
    ensures Tokens(CString(Joined(args)), [], Between) == Some(args) <==> NulFree(args)
  {
    ReadAll(args, []);
    assert [] + args == args;
  }
}

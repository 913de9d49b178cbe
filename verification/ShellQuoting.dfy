// engine/agent_install.go, shellQuote, against the quoting rules of POSIX.1-2017,
// Shell Command Language, sections 2.2.1 (backslash) and 2.2.2 (single-quotes).
module ShellQuoting {
  import opened Models

  // strings.ReplaceAll(s, "'", "'\\''")
  function EscapeQuotes(s: string): string {
    if s == "" then ""
    else (if s[0] == '\'' then "'\\''" else [s[0]]) + EscapeQuotes(s[1..])
  }

  function ShellQuote(s: string): string {
    "'" + EscapeQuotes(s) + "'"
  }

  // Reading a command line

  datatype Mode = Plain | Quoted | Escaped

  // Words finished so far, and the one being read, if any.
  datatype Reader = Reader(mode: Mode, words: seq<string>, word: Option<string>)

  predicate IsBlank(c: char) {
    c == ' ' || c == '\t' || c == '\n'
  }

  // Unquoted characters whose meaning other sections define.
  predicate IsSpecial(c: char) {
    c in "|&;<>()$`\"*?[]#~=%!{}"
  }

  function Begun(word: Option<string>): string {
    if word.Some? then word.value else ""
  }

  function Finished(r: Reader): seq<string> {
    if r.word.Some? then r.words + [r.word.value] else r.words
  }

  // One character; None if it needs rules other than these.
  function Feed(r: Reader, c: char): Option<Reader> {
    match r.mode
    case Quoted =>
      if c == '\'' then Some(r.(mode := Plain)) else Some(r.(word := Some(Begun(r.word) + [c])))
    case Escaped =>
      if c == '\n' then Some(r.(mode := Plain))
      else Some(r.(mode := Plain, word := Some(Begun(r.word) + [c])))
    case Plain =>
      if c == '\'' then Some(r.(mode := Quoted, word := Some(Begun(r.word))))
      else if c == '\\' then Some(r.(mode := Escaped))
      else if IsBlank(c) then Some(Reader(Plain, Finished(r), None))
      else if IsSpecial(c) then None
      else Some(r.(word := Some(Begun(r.word) + [c])))
  }

  function ReadFrom(r: Reader, s: string): Option<Reader>
    decreases |s|
  {
    if s == "" then Some(r)
    else match Feed(r, s[0])
      case None => None
      case Some(next) => ReadFrom(next, s[1..])
  }

  // The words of a command line; None if a quote is left open.
  function Words(s: string): Option<seq<string>> {
    match ReadFrom(Reader(Plain, [], None), s)
    case None => None
    case Some(r) => if r.mode == Plain then Some(Finished(r)) else None
  }

  lemma {:induction false} ReadConcat(r: Reader, s: string, t: string)
    ensures ReadFrom(r, s + t) ==
      match ReadFrom(r, s)
      case None => None
      case Some(next) => ReadFrom(next, t)
    decreases |s|
  {
    if s == "" {
      assert s + t == t;
    } else {
      assert (s + t)[1..] == s[1..] + t;
      if Feed(r, s[0]).Some? {
        ReadConcat(Feed(r, s[0]).value, s[1..], t);
      }
    }
  }

  // Inside single quotes, the escaped form of s adds exactly s to the word.
  lemma {:induction false} ReadEscaped(words: seq<string>, word: string, s: string)
    ensures ReadFrom(Reader(Quoted, words, Some(word)), EscapeQuotes(s)) == Some(Reader(Quoted, words, Some(word + s)))
    decreases |s|
  {
    var r := Reader(Quoted, words, Some(word));
    if s == "" {
      assert word + s == word;
    } else {
      var head := if s[0] == '\'' then "'\\''" else [s[0]];
      assert ReadFrom(r, head) == Some(Reader(Quoted, words, Some(word + [s[0]]))) by {
        ReadHead(words, word, s[0]);
      }
      ReadConcat(r, head, EscapeQuotes(s[1..]));
      ReadEscaped(words, word + [s[0]], s[1..]);
      assert word + [s[0]] + s[1..] == word + s;
    }
  }

  lemma ReadHead(words: seq<string>, word: string, c: char)
    ensures ReadFrom(Reader(Quoted, words, Some(word)), if c == '\'' then "'\\''" else [c]) ==
      Some(Reader(Quoted, words, Some(word + [c])))
  {
    var r := Reader(Quoted, words, Some(word));
    if c == '\'' {
      ReadConcat(r, "'", "\\''");
      ReadConcat(Reader(Plain, words, Some(word)), "\\", "''");
      ReadConcat(Reader(Escaped, words, Some(word)), "'", "'");
      assert "'" + "\\''" == "'\\''" && "\\" + "''" == "\\''" && "'" + "'" == "''";
    }
  }

  // Wherever it stands, a quoted string adds exactly itself to the word being
  // read, and leaves the reader unquoted.
  lemma ReadQuoted(words: seq<string>, word: Option<string>, s: string)
    ensures ReadFrom(Reader(Plain, words, word), ShellQuote(s)) == Some(Reader(Plain, words, Some(Begun(word) + s)))
  {
    var r := Reader(Plain, words, word);
    var quoted := Reader(Quoted, words, Some(Begun(word)));
    assert ReadFrom(r, "'") == ReadFrom(quoted, "");
    ReadConcat(r, "'", EscapeQuotes(s));
    ReadEscaped(words, Begun(word), s);
    ReadConcat(r, "'" + EscapeQuotes(s), "'");
    assert ReadFrom(Reader(Quoted, words, Some(Begun(word) + s)), "'")
        == ReadFrom(Reader(Plain, words, Some(Begun(word) + s)), "");
  }

  // Every string survives quoting as exactly one word.
  lemma QuoteRoundTrip(s: string)
    ensures Words(ShellQuote(s)) == Some([s])
  {
    ReadQuoted([], None, s);
    assert Begun(None) + s == s && [] + [s] == [s];
  }

  function QuoteAll(args: seq<string>): string {
    if |args| == 0 then "" else QuoteAll(args[..|args| - 1]) + ShellQuote(args[|args| - 1]) + " "
  }

  // And any list of strings, quoted one by one and separated by spaces, reads
  // back as that list.
  lemma {:induction false} QuoteAllRoundTrip(args: seq<string>)
    ensures ReadFrom(Reader(Plain, [], None), QuoteAll(args)) == Some(Reader(Plain, args, None))
    ensures Words(QuoteAll(args)) == Some(args)
  {
    if |args| > 0 {
      var before, s := args[..|args| - 1], args[|args| - 1];
      QuoteAllRoundTrip(before);
      ReadConcat(Reader(Plain, [], None), QuoteAll(before), ShellQuote(s));
      ReadQuoted(before, None, s);
      ReadConcat(Reader(Plain, [], None), QuoteAll(before) + ShellQuote(s), " ");
      assert "" + s == s && before + [s] == args;
      assert ReadFrom(Reader(Plain, before, Some(s)), " ") == ReadFrom(Reader(Plain, before + [s], None), "");
    }
  }
}

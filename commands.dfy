/** The pure part of the update handler: the API key format check, the parsing
    of a text message into a command, the MIME-type dispatch and the sender id cast. */
module Commands {
  import opened Text

  // ----- the API key pattern ^sk-[a-zA-Z0-9_-]{48}$ -----

  const KeyPrefix := "sk-"
  const KeyBodyLength := 48

  /** The character class `[a-zA-Z0-9_-]`. */
  predicate IsKeyChar(c: char)
  {
    ('a' <= c <= 'z') || ('A' <= c <= 'Z') || ('0' <= c <= '9') || c == '_' || c == '-'
  }

  /** Matches the literal `lit` at the front of `s`; yields the rest of the input. */
  function MatchLiteral(lit: string, s: string): Option<string>
  {
    if StartsWith(s, lit) then Some(s[|lit|..]) else None
  }

  /** Matches exactly `n` key characters at the front of `s`; yields the rest of the input. */
  function MatchKeyChars(n: nat, s: string): Option<string>
    decreases n
  {
    if n == 0 then Some(s)
    else if s != [] && IsKeyChar(s[0]) then MatchKeyChars(n - 1, s[1..])
    else None
  }

  /** `$` without `RegexOptions.Multiline`: the end of the input, or just before a final newline. */
  predicate MatchEnd(s: string)
  {
    s == "" || s == "\n"
  }

  /** `Regex.IsMatch` with the anchored pattern: prefix, 48 class characters, end. */
  predicate IsValidPattern(input: string)
  {
    match MatchLiteral(KeyPrefix, input)
    case None => false
    case Some(afterPrefix) =>
      match MatchKeyChars(KeyBodyLength, afterPrefix)
      case None => false
      case Some(afterBody) => MatchEnd(afterBody)
  }

  lemma {:induction false} MatchKeyCharsSpec(n: nat, s: string)
    ensures MatchKeyChars(n, s).Some? <==> n <= |s| && forall i :: 0 <= i < n ==> IsKeyChar(s[i])
    ensures MatchKeyChars(n, s).Some? ==> MatchKeyChars(n, s).value == s[n..]
    decreases n
  {
    if n > 0 && s != [] {
      MatchKeyCharsSpec(n - 1, s[1..]);
      assert forall i :: 1 <= i < n && i < |s| ==> s[1..][i - 1] == s[i];
    }
  }

  /** The accepted keys: "sk-", then exactly 48 characters of the class, then
      nothing or a single newline (the second case is what `$` lets through). */
  lemma IsValidPatternSpec(s: string)
    ensures IsValidPattern(s) <==>
      && (|s| == 51 || (|s| == 52 && s[51] == '\n'))
      && s[..3] == KeyPrefix
      && forall i :: 3 <= i < 51 ==> IsKeyChar(s[i])
  {
    if StartsWith(s, KeyPrefix) {
      MatchKeyCharsSpec(KeyBodyLength, s[3..]);
      assert forall i :: 3 <= i < 51 && i < |s| ==> s[3..][i - 3] == s[i];
    }
  }

  /** The empty string, and anything shorter than 51 or longer than 52 characters, is rejected. */
  lemma ValidPatternLength(s: string)
    ensures IsValidPattern(s) ==> |s| == 51 || |s| == 52
    ensures !IsValidPattern("")
  {
    IsValidPatternSpec(s);
    IsValidPatternSpec("");
  }

  /** A valid key followed by one newline is still accepted. */
  lemma TrailingNewlineAccepted(s: string)
    requires IsValidPattern(s) && |s| == 51
    ensures IsValidPattern(s + "\n")
  {
    IsValidPatternSpec(s);
    IsValidPatternSpec(s + "\n");
    assert (s + "\n")[..3] == s[..3];
  }

  /** A key that matches the pattern is never blank, so the blank check before it adds nothing. */
  lemma ValidPatternNotBlank(s: string)
    requires IsValidPattern(s)
    ensures !IsBlank(s)
  {
    IsValidPatternSpec(s);
    assert s[0] == s[..3][0] == 's';
  }

  // ----- text commands -----

  /** `String.Split(' ')`: every piece between spaces, empty pieces included. */
  function Split(s: string): (parts: seq<string>)
    ensures |parts| >= 1
    ensures forall i :: 0 <= i < |parts| ==> ' ' !in parts[i]
    decreases |s|
  {
    if s == [] then [""]
    else
      var rest := Split(s[1..]);
      if s[0] == ' ' then [""] + rest else [[s[0]] + rest[0]] + rest[1..]
  }

  /** `String.Join(" ", parts)`. */
  function Join(parts: seq<string>): string
  {
    if |parts| == 0 then ""
    else if |parts| == 1 then parts[0]
    else parts[0] + " " + Join(parts[1..])
  }

  /** The text before the first space (all of it when there is none). */
  function BeforeSpace(s: string): (r: string)
    ensures |r| <= |s| && r == s[..|r|]
    ensures ' ' !in r
    ensures |r| < |s| ==> s[|r|] == ' '
  {
    if s == [] || s[0] == ' ' then [] else [s[0]] + BeforeSpace(s[1..])
  }

  /** The text after the first space ("" when there is none). */
  function AfterSpace(s: string): string
  {
    if s == [] then [] else if s[0] == ' ' then s[1..] else AfterSpace(s[1..])
  }

  /** Splitting and joining again gives the original text back. */
  lemma {:induction false} JoinSplit(s: string)
    ensures Join(Split(s)) == s
    decreases |s|
  {
    if s != [] {
      JoinSplit(s[1..]);
      var rest := Split(s[1..]);
      if s[0] != ' ' {
        assert s == [s[0]] + s[1..];
        if |rest| > 1 {
          assert Join(Split(s)) == ([s[0]] + rest[0]) + " " + Join(rest[1..]);
        }
      } else {
        assert s == " " + s[1..];
      }
    }
  }

  /** The first piece is the command name, and the other pieces joined with spaces
      are exactly the text after the first space. */
  lemma {:induction false} SplitHeadRest(s: string)
    ensures Split(s)[0] == BeforeSpace(s)
    ensures |Split(s)| > 1 <==> ' ' in s
    ensures |Split(s)| > 1 ==> Join(Split(s)[1..]) == AfterSpace(s)
    ensures |Split(s)| > 1 ==> Split(s)[1] == BeforeSpace(AfterSpace(s))
    decreases |s|
  {
    if s != [] {
      SplitHeadRest(s[1..]);
      if s[0] == ' ' {
        JoinSplit(s[1..]);
        assert Split(s)[1..] == Split(s[1..]);
      } else {
        assert s == [s[0]] + s[1..];
        assert Split(s)[1..] == Split(s[1..])[1..];
      }
    }
  }

  datatype Command =
    | Info
    | ResetKey
    | SetKey(key: string)
    | Ask(query: string)
    | Search(query: string, name: string, count: nat)
    | ResetFile
    | Usage
    | Formats
    | Help

  const FewPieces := 4
  const ManyPieces := 8

  /** The `split[0] switch` of the text handler. */
  function ParseCommand(text: string): Command
  {
    var split := Split(text);
    var rest := if |split| > 1 then Join(split[1..]) else "";
    var name := split[0];
    if name == "/info" then Info
    else if name == "/reset_key" then ResetKey
    else if name == "/set_key" then SetKey(if |split| > 1 then split[1] else "")
    else if name == "/ask" then Ask(rest)
    else if name == "/search_few" then Search(rest, "/search_few", FewPieces)
    else if name == "/search_many" then Search(rest, "/search_many", ManyPieces)
    else if name == "/reset_file" then ResetFile
    else if name == "/usage" then Usage
    else if name == "/formats" then Formats
    else if name == "/help" then Help
    else Usage
  }

  predicate IsKnownCommand(name: string)
  {
    name in {"/info", "/reset_key", "/set_key", "/ask", "/search_few", "/search_many",
             "/reset_file", "/usage", "/formats", "/help"}
  }

  /** The command is named by the text before the first space; queries are all
      of the text after it, and a key is only the next space-free piece. */
  lemma ParseCommandSpec(text: string)
    ensures BeforeSpace(text) == "/ask" ==> ParseCommand(text) == Ask(AfterSpace(text))
    ensures BeforeSpace(text) == "/search_few" ==> ParseCommand(text) == Search(AfterSpace(text), "/search_few", 4)
    ensures BeforeSpace(text) == "/search_many" ==> ParseCommand(text) == Search(AfterSpace(text), "/search_many", 8)
    ensures BeforeSpace(text) == "/set_key" ==> ParseCommand(text) == SetKey(BeforeSpace(AfterSpace(text)))
    ensures BeforeSpace(text) == "/info" ==> ParseCommand(text) == Info
    ensures BeforeSpace(text) == "/reset_key" ==> ParseCommand(text) == ResetKey
    ensures BeforeSpace(text) == "/reset_file" ==> ParseCommand(text) == ResetFile
    ensures BeforeSpace(text) == "/usage" ==> ParseCommand(text) == Usage
    ensures BeforeSpace(text) == "/formats" ==> ParseCommand(text) == Formats
    ensures BeforeSpace(text) == "/help" ==> ParseCommand(text) == Help
    ensures !IsKnownCommand(BeforeSpace(text)) ==> ParseCommand(text) == Usage
  {
    SplitHeadRest(text);
    if ' ' !in text {
      assert AfterSpace(text) == "" by { NoSpaceNothingAfter(text); }
    }
  }

  lemma {:induction false} NoSpaceNothingAfter(s: string)
    requires ' ' !in s
    ensures AfterSpace(s) == ""
    decreases |s|
  {
    if s != [] {
      assert s[0] in s;
      assert forall c :: c in s[1..] ==> c in s;
      NoSpaceNothingAfter(s[1..]);
    }
  }

  // ----- documents -----

  datatype DocumentKind = PlainText | Chm | Pdf

  /** The MIME-type switch; `None` (also for a missing MIME type) means unsupported. */
  function KindOf(mime: Option<string>): (kind: Option<DocumentKind>)
    ensures kind == Some(PlainText) <==> mime == Some("text/plain")
    ensures kind == Some(Chm) <==> mime == Some("application/vnd.ms-htmlhelp")
    ensures kind == Some(Pdf) <==> mime == Some("application/pdf")
  {
    match mime
    case None => None
    case Some(m) =>
      if m == "text/plain" then Some(PlainText)
      else if m == "application/vnd.ms-htmlhelp" then Some(Chm)
      else if m == "application/pdf" then Some(Pdf)
      else None
  }

  // ----- sender ids -----

  const Two32 := 0x1_0000_0000
  const Two31 := 0x8000_0000

  /** The unchecked `(int)` cast of a 64-bit Telegram user id: the low 32 bits, two's complement. */
  function ToInt32(x: int): (r: int)
    ensures -Two31 <= r < Two31
    ensures (x - r) % Two32 == 0
  {
    var low := x % Two32;
    if low >= Two31 then low - Two32 else low
  }

  /** Ids that fit in 32 bits are kept; ids 2^32 apart share one store record. */
  lemma ToInt32Spec(x: int)
    ensures -Two31 <= x < Two31 ==> ToInt32(x) == x
    ensures ToInt32(x + Two32) == ToInt32(x)
  {
    assert (x + Two32) % Two32 == x % Two32;
  }
}

/**
 * Recognising a command addressed to the bot in a group-chat message body:
 * the body must start with the bot's nickname (a literal, case-sensitive
 * prefix, no separator required), and the rest, with whitespace, commas and
 * colons trimmed from both ends, is the command text.
 */
module Commands {
  import opened Options
  import opened Stanzas

  /** Rust's `char::is_whitespace`: the Unicode White_Space property. */
  predicate IsWhitespace(c: char) {
    var n := c as int;
    (0x09 <= n <= 0x0D) || n == 0x20 || n == 0x85 || n == 0xA0 || n == 0x1680
    || (0x2000 <= n <= 0x200A) || n == 0x2028 || n == 0x2029 || n == 0x202F
    || n == 0x205F || n == 0x3000
  }

  /** The characters trimmed around a command: whitespace and address punctuation. */
  predicate IsAddressChar(c: char) {
    IsWhitespace(c) || c == ',' || c == ':'
  }

  /** Every character of `s` is trimmed away. */
  predicate AllAddressChars(s: string) {
    forall k :: 0 <= k < |s| ==> IsAddressChar(s[k])
  }

  /** Every character of `s[lo..hi]` is trimmed away. */
  predicate AddressRun(s: string, lo: nat, hi: nat)
    requires lo <= hi <= |s|
  {
    forall k :: lo <= k < hi ==> IsAddressChar(s[k])
  }

  /** `s` neither starts nor ends with a trimmed character. */
  predicate IsTrimmed(s: string) {
    s == [] || (!IsAddressChar(s[0]) && !IsAddressChar(s[|s| - 1]))
  }

  /** `str::strip_prefix`: the rest of `s` after `prefix`, if `s` starts with it. */
  function StripPrefix(s: string, prefix: string): (r: Option<string>)
    ensures r.Some? <==> (|prefix| <= |s| && s[..|prefix|] == prefix)
    ensures r.Some? ==> prefix + r.value == s
  {
    if |prefix| <= |s| && s[..|prefix|] == prefix then
      assert prefix + s[|prefix|..] == s;
      Some(s[|prefix|..])
    else
      None
  }

  /** The first index at or after `i` whose character is kept (the front scan of `trim_matches`). */
  function SkipLeading(s: string, i: nat): (r: nat)
    requires i <= |s|
    ensures i <= r <= |s|
    ensures AddressRun(s, i, r)
    ensures r < |s| ==> !IsAddressChar(s[r])
    decreases |s| - i
  {
    if i < |s| && IsAddressChar(s[i]) then SkipLeading(s, i + 1) else i
  }

  /** The end, at most `j` and at least `lo`, of the kept part (the back scan of `trim_matches`). */
  function SkipTrailing(s: string, lo: nat, j: nat): (r: nat)
    requires lo <= j <= |s|
    ensures lo <= r <= j
    ensures AddressRun(s, r, j)
    ensures lo < r ==> !IsAddressChar(s[r - 1])
    decreases j
  {
    if lo < j && IsAddressChar(s[j - 1]) then SkipTrailing(s, lo, j - 1) else j
  }

  /** `str::trim_matches` with the address-character predicate. */
  function TrimMatches(s: string): (r: string)
    ensures |r| <= |s|
    ensures IsTrimmed(r)
  {
    var i := SkipLeading(s, 0);
    s[i..SkipTrailing(s, i, |s|)]
  }

  /**
   * Trimming keeps exactly the middle part `s[i..j]` that is itself trimmed
   * and has only address characters before `i` and after `j`: the result is
   * the unique such infix.
   */
  lemma TrimMatchesCharacterised(s: string, i: nat, j: nat)
    requires i <= j <= |s|
    ensures TrimMatches(s) == s[i..j]
        <==> AddressRun(s, 0, i) && AddressRun(s, j, |s|) && IsTrimmed(s[i..j])
  {
  }

  /** Trimming leaves nothing exactly when there are only address characters. */
  lemma TrimMatchesEmptyIff(s: string)
    ensures TrimMatches(s) == [] <==> AllAddressChars(s)
  {
  }

  /** A trimmed string is left as it is. */
  lemma TrimMatchesFixesTrimmed(s: string)
    requires IsTrimmed(s)
    ensures TrimMatches(s) == s
  {
  }

  /** Trimming twice is the same as trimming once. */
  lemma TrimMatchesIdempotent(s: string)
    ensures TrimMatches(TrimMatches(s)) == TrimMatches(s)
  {
  }

  /** The command text addressed to `nick` in `body`, if the body is addressed to it. */
  function ExtractCommand(nick: string, body: string): (r: Option<string>)
    ensures r.Some? <==> (|nick| <= |body| && body[..|nick|] == nick)
    ensures r.Some? ==> IsTrimmed(r.value) && |r.value| <= |body| - |nick|
  {
    match StripPrefix(body, nick)
    case None => None
    case Some(rest) => Some(TrimMatches(rest))
  }

  /** A run of address characters in `s[n..]` is one in `s`, shifted by `n`. */
  lemma AddressRunShift(s: string, n: nat, lo: nat, hi: nat)
    requires n <= |s| && lo <= hi <= |s| - n
    requires AddressRun(s[n..], lo, hi)
    ensures AddressRun(s, n + lo, n + hi)
  {
  }

  /**
   * The command is the contiguous part of the body after the nickname that
   * is left once the address characters on both sides are removed.
   */
  lemma ExtractCommandIsInfix(nick: string, body: string)
    requires ExtractCommand(nick, body).Some?
    ensures exists i, j ::
              |nick| <= i <= j <= |body|
              && ExtractCommand(nick, body).value == body[i..j]
              && AddressRun(body, |nick|, i) && AddressRun(body, j, |body|)
  {
    var n := |nick|;
    var rest := body[n..];
    var a := SkipLeading(rest, 0);
    var b := SkipTrailing(rest, a, |rest|);
    assert ExtractCommand(nick, body).value == rest[a..b];
    assert rest[a..b] == body[n + a..n + b];
    AddressRunShift(body, n, 0, a);
    AddressRunShift(body, n, b, |rest|);
  }

  /** A body holding only the nickname and address characters gives the empty command. */
  lemma ExtractCommandEmptyIff(nick: string, body: string)
    ensures ExtractCommand(nick, body) == Some([])
      <==> (|nick| <= |body| && body[..|nick|] == nick && AllAddressChars(body[|nick|..]))
  {
  }

  /**
   * Round trip: a message made of the nickname, any run of address
   * characters and a trimmed command text gives back exactly that text.
   */
  lemma ExtractCommandRoundTrip(nick: string, sep: string, text: string)
    requires AllAddressChars(sep) && IsTrimmed(text)
    ensures ExtractCommand(nick, nick + sep + text) == Some(text)
  {
    var body := nick + sep + text;
    var rest := sep + text;
    assert body[..|nick|] == nick && body[|nick|..] == rest;
    assert rest[|sep|..|rest|] == text;
    TrimMatchesCharacterised(rest, |sep|, |rest|);
  }

  /** `"nick: foo bar"` addresses the bot with a colon and a space. */
  lemma ExtractCommandColonExample()
    ensures ExtractCommand("nick", "nick: foo bar") == Some("foo bar")
  {
    assert "nick: foo bar" == "nick" + ": " + "foo bar";
    ExtractCommandRoundTrip("nick", ": ", "foo bar");
  }

  /** `"nick,foo"` addresses the bot with a bare comma. */
  lemma ExtractCommandCommaExample()
    ensures ExtractCommand("nick", "nick,foo") == Some("foo")
  {
    assert "nick,foo" == "nick" + "," + "foo";
    ExtractCommandRoundTrip("nick", ",", "foo");
  }

  /** No separator is needed after the nickname: `"nickfoo"` gives `"foo"`. */
  lemma ExtractCommandNoSeparatorExample()
    ensures ExtractCommand("nick", "nickfoo") == Some("foo")
  {
    assert "nickfoo" == "nick" + "" + "foo";
    ExtractCommandRoundTrip("nick", "", "foo");
  }

  /** The nickname alone gives the empty command, not no command. */
  lemma ExtractCommandNickOnlyExample()
    ensures ExtractCommand("nick", "nick") == Some("")
  {
  }

  /** The nickname is matched case-sensitively. */
  lemma ExtractCommandCaseExample()
    ensures ExtractCommand("nick", "Nick: foo") == None
  {
    assert "Nick: foo"[..4] != "nick" by { assert "Nick: foo"[0] != "nick"[0]; }
  }

  /** The command a decoded stanza carries: only a group-chat message with a body can have one. */
  function CommandOf(nick: string, s: Stanza): (r: Option<string>)
    ensures r.Some? <==> (s.Message? && s.kind == Groupchat && s.body.Some?
                          && |nick| <= |s.body.value| && s.body.value[..|nick|] == nick)
    ensures r.Some? ==> r == ExtractCommand(nick, s.body.value)
  {
    match s
    case Message(kind, body) =>
      if kind == Groupchat then
        match body
        case Some(text) => ExtractCommand(nick, text)
        case None => None
      else None
    case NotMessage => None
  }
}

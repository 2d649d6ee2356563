/**
 * The text functions of reply.py: `extract_toot` (strip one leading mention,
 * lowercase), the exact command match, and the `@` rewrite that keeps a
 * generated reply from mentioning anyone.
 */
module ReplyText {
  import opened Wrappers
  import opened Strings

  /**
   * `\s` of Python's regular expressions, restricted to its ASCII members:
   * space, tab, line feed, carriage return, vertical tab, form feed and the
   * separators 0x1C to 0x1F.
   */
  predicate IsSpace(c: char)
  {
    c == ' ' || c == '\t' || c == '\n' || c == '\r' || c as int == 0x0B || c as int == 0x0C
    || 0x1C <= c as int <= 0x1F
  }

  /**
   * `^@\S+\s` matches `s[..k + 1]`: an '@', a non-empty run of non-space
   * characters up to index k, and the whitespace character at k.
   */
  predicate LeadingMention(s: string, k: int)
  {
    2 <= k < |s| && s[0] == '@' && IsSpace(s[k]) && forall i | 1 <= i < k :: !IsSpace(s[i])
  }

  /** The regular expression matches at most once: the run of `\S+` is greedy and cannot hold a space. */
  lemma LeadingMentionUnique(s: string, k1: int, k2: int)
    requires LeadingMention(s, k1) && LeadingMention(s, k2)
    ensures k1 == k2
  {
  }

  /** Index of the first whitespace character at or after `from`. */
  function FirstSpace(s: string, from: nat): (r: Option<nat>)
    requires from <= |s|
    ensures r.Some? ==> from <= r.value < |s| && IsSpace(s[r.value])
    ensures forall j | from <= j < (if r.Some? then r.value else |s|) :: !IsSpace(s[j])
    decreases |s| - from
  {
    if from == |s| then None
    else if IsSpace(s[from]) then Some(from)
    else FirstSpace(s, from + 1)
  }

  /** Where the leading mention ends, if `s` starts with one. */
  function MentionEnd(s: string): (r: Option<nat>)
    ensures r.Some? ==> LeadingMention(s, r.value)
    ensures r.None? ==> forall k :: !LeadingMention(s, k)
  {
    if |s| >= 1 && s[0] == '@' then
      match FirstSpace(s, 1)
      case Some(k) =>
        if k >= 2 then Some(k)
        else assert forall k :: LeadingMention(s, k) ==> !IsSpace(s[1]); None
      case None => None
    else None
  }

  /**
   * `extract_toot` after `extract_post_content`: removes at most one leading
   * `@<non-space run><whitespace>` and lowercases the rest.
   */
  function ExtractToot(text: string): (r: string)
    ensures (exists k :: LeadingMention(text, k) && r == Lower(text[k + 1..]))
         || ((forall k :: !LeadingMention(text, k)) && r == Lower(text))
  {
    match MentionEnd(text)
    case Some(k) => Lower(text[k + 1..])
    case None => Lower(text)
  }

  /** Only the exact texts "pin" and "unpin" are commands. */
  predicate IsCommand(text: string)
  {
    text == "pin" || text == "unpin"
  }

  /** Extraction of a text that starts with a mention drops exactly that mention. */
  lemma ExtractTootAfterMention(text: string, k: nat)
    requires LeadingMention(text, k)
    ensures ExtractToot(text) == Lower(text[k + 1..])
  {
    LeadingMentionUnique(text, k, MentionEnd(text).value);
  }

  /** "@bot PIN this please" extracts to "pin this please", which is not a command. */
  lemma PinWithWordsIsNotCommand()
    ensures ExtractToot("@bot PIN it") == "pin it"
    ensures !IsCommand(ExtractToot("@bot PIN it"))
  {
    var t := "@bot PIN it";
    assert LeadingMention(t, 4);
    ExtractTootAfterMention(t, 4);
    assert t[5..] == "PIN it";
    var r := Lower("PIN it");
    assert r[0] == 'p' && r[1] == 'i' && r[2] == 'n';
    assert r == "pin it";
  }

  /** Only the first mention is removed. */
  lemma SecondMentionKept()
    ensures ExtractToot("@a @b Pin") == "@b pin"
  {
    var t := "@a @b Pin";
    assert LeadingMention(t, 2);
    ExtractTootAfterMention(t, 2);
    assert t[3..] == "@b Pin";
    var r := Lower("@b Pin");
    assert r[3] == 'p';
    assert r == "@b pin";
  }

  /** A bare command after the mention is recognised whatever its case. */
  lemma BareCommandRecognised()
    ensures IsCommand(ExtractToot("@bot UnPin"))
    ensures !IsCommand("pin ")
  {
    var t := "@bot UnPin";
    assert LeadingMention(t, 4);
    ExtractTootAfterMention(t, 4);
    assert t[5..] == "UnPin";
    var r := Lower("UnPin");
    assert r[0] == 'u' && r[2] == 'p';
    assert r == "unpin";
  }

  // ---------------------------------------------------------------------------
  // Mention sanitising

  const ZeroWidthSpace: char := '\U{200B}'

  /** `toot.replace("@", "@​")` */
  function Sanitize(toot: string): string
  {
    Replace(toot, '@', ['@', ZeroWidthSpace])
  }

  /** Deletes the zero-width space that follows each '@'. */
  function Unsanitize(s: string): string
  {
    if |s| >= 2 && s[0] == '@' && s[1] == ZeroWidthSpace then ['@'] + Unsanitize(s[2..])
    else if s == [] then []
    else [s[0]] + Unsanitize(s[1..])
  }

  /** No '@' of the sanitised text can start a mention: each is followed by U+200B. */
  lemma {:induction false} SanitizeEscapesEveryAt(toot: string)
    ensures var r := Sanitize(toot);
      forall i | 0 <= i < |r| && r[i] == '@' :: i + 1 < |r| && r[i + 1] == ZeroWidthSpace
  {
    if toot != [] {
      SanitizeEscapesEveryAt(toot[1..]);
      var head := if toot[0] == '@' then ['@', ZeroWidthSpace] else [toot[0]];
      var r, rest := Sanitize(toot), Sanitize(toot[1..]);
      assert r == head + rest;
      forall i | 0 <= i < |r| && r[i] == '@' ensures i + 1 < |r| && r[i + 1] == ZeroWidthSpace {
        if i >= |head| {
          assert rest[i - |head|] == '@';
        }
      }
    }
  }

  /** The sanitised text is one character longer per '@'. */
  lemma {:induction false} SanitizeLength(toot: string)
    ensures |Sanitize(toot)| == |toot| + Count(toot, '@')
  {
    if toot != [] {
      SanitizeLength(toot[1..]);
    }
  }

  /** Deleting the U+200B after each '@' gives the input back. */
  lemma {:induction false} UnsanitizeSanitize(toot: string)
    ensures Unsanitize(Sanitize(toot)) == toot
  {
    if toot != [] {
      UnsanitizeSanitize(toot[1..]);
      var rest := Sanitize(toot[1..]);
      if toot[0] == '@' {
        assert Sanitize(toot) == ['@', ZeroWidthSpace] + rest;
        assert (['@', ZeroWidthSpace] + rest)[2..] == rest;
      } else {
        assert Sanitize(toot) == [toot[0]] + rest;
        assert ([toot[0]] + rest)[1..] == rest;
      }
      assert [toot[0]] + toot[1..] == toot;
    }
  }

  /** The rewrite is not idempotent: a second pass adds a second U+200B. */
  lemma SanitizeNotIdempotent()
    ensures Sanitize(Sanitize("@")) != Sanitize("@")
  {
    SanitizeLength("@");
    SanitizeLength(Sanitize("@"));
    assert Sanitize("@") == ['@', ZeroWidthSpace];
    assert Count(['@', ZeroWidthSpace], '@') == 1;
  }
}

/**
 * The post-processing `get_proxy_mode` applies to the configuration service's `/mode`
 * response: every double quote and then every single quote is deleted, so that a
 * JSON-quoted `"whitelist"` becomes the bare token the access decision compares against.
 */
module ParseConfig {

  predicate IsQuote(c: char) { c == '"' || c == '\'' }

  /** `s.replace(c, "")`: every occurrence of `c` deleted, everything else kept in order. */
  function RemoveAll(s: string, c: char): (r: string)
    ensures c !in r
    ensures |r| <= |s|
    ensures c !in s ==> r == s
    ensures forall x :: x in r ==> x in s
  {
    if s == [] then [] else (if s[0] == c then [] else [s[0]]) + RemoveAll(s[1..], c)
  }

  /** The chained `.replace('"', "").replace("'", "")` of `get_proxy_mode`. */
  function StripQuotes(text: string): (r: string)
    ensures forall i :: 0 <= i < |r| ==> !IsQuote(r[i])
    ensures |r| <= |text|
    ensures (forall i :: 0 <= i < |text| ==> !IsQuote(text[i])) ==> r == text
  {
    RemoveAll(RemoveAll(text, '"'), '\'')
  }

  /** Reference reading of the result: one left-to-right pass that drops the quote characters. */
  function Unquoted(s: string): string {
    if s == [] then [] else (if IsQuote(s[0]) then [] else [s[0]]) + Unquoted(s[1..])
  }

  /** Deleting a character distributes over concatenation. */
  lemma {:induction false} RemoveAllAppend(a: string, b: string, c: char)
    ensures RemoveAll(a + b, c) == RemoveAll(a, c) + RemoveAll(b, c)
  {
    if a == [] {
      assert a + b == b;
    } else {
      assert (a + b)[0] == a[0];
      assert (a + b)[1..] == a[1..] + b;
      RemoveAllAppend(a[1..], b, c);
    }
  }

  /** The two chained deletions are exactly the one-pass quote filter. */
  lemma {:induction false} StripQuotesIsUnquoted(s: string)
    ensures StripQuotes(s) == Unquoted(s)
  {
    if s != [] {
      StripQuotesIsUnquoted(s[1..]);
      var head := if s[0] == '"' then [] else [s[0]];
      assert RemoveAll(s, '"') == head + RemoveAll(s[1..], '"');
      RemoveAllAppend(head, RemoveAll(s[1..], '"'), '\'');
      assert RemoveAll(head, '\'') == if IsQuote(s[0]) then [] else [s[0]] by {
        if head != [] {
          assert head[1..] == [];
        }
      }
    }
  }

  /** Stripping twice strips nothing more. */
  lemma StripQuotesIdempotent(text: string)
    ensures StripQuotes(StripQuotes(text)) == StripQuotes(text)
  {
  }

  /** Quoting a quote-free word and stripping the result gives the word back. */
  lemma {:induction false} StripQuotedWord(q: char, word: string)
    requires IsQuote(q)
    requires forall i :: 0 <= i < |word| ==> !IsQuote(word[i])
    ensures StripQuotes([q] + word + [q]) == word
  {
    var other := if q == '"' then '\'' else '"';
    assert RemoveAll([q], q) == [] by { assert [q][1..] == []; }
    assert RemoveAll([q], other) == [q] by { assert [q][1..] == []; }
    assert q !in word && other !in word;
    RemoveAllAppend([q] + word, [q], '"');
    RemoveAllAppend([q], word, '"');
    RemoveAllAppend([q] + word, [q], '\'');
    RemoveAllAppend([q], word, '\'');
  }

  /** The service's JSON-encoded answer `"whitelist"` becomes the bare mode token. */
  lemma QuotedWhitelist()
    ensures StripQuotes("\"whitelist\"") == "whitelist"
  {
    assert "\"whitelist\"" == ['"'] + "whitelist" + ['"'];
    StripQuotedWord('"', "whitelist");
  }

  /** The same for a single-quoted `'blacklist'`. */
  lemma QuotedBlacklist()
    ensures StripQuotes("'blacklist'") == "blacklist"
  {
    assert "'blacklist'" == ['\''] + "blacklist" + ['\''];
    StripQuotedWord('\'', "blacklist");
  }
}

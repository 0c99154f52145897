/**
 * The split of a requested name into option tokens and a bare storage key,
 * done by the `AbstractFile` constructor with the regular expression
 * `^(.*)&\/` and `split('&')`.
 *
 * The regular expression is modelled exactly: `.*` is greedy, so the match
 * ends at the LAST `&/` that the engine can reach, and `.` does not match a
 * JavaScript line terminator, so the engine cannot reach past the first one.
 */
module PathParser {
  import opened Wrappers
  import opened Text

  /** The character between option tokens. */
  const OptionsSep: char := '&'

  /** The characters that JavaScript's `.` refuses to match. */
  predicate IsLineTerminator(c: char)
  {
    c == '\n' || c == '\r' || c == '\U{2028}' || c == '\U{2029}'
  }

  predicate LineFree(s: string)
  {
    forall k :: 0 <= k < |s| ==> !IsLineTerminator(s[k])
  }

  /** `&/` starts at index i of s. */
  predicate SeparatorAt(s: string, i: int)
  {
    0 <= i && i + 1 < |s| && s[i] == '&' && s[i + 1] == '/'
  }

  predicate HasSeparator(s: string)
  {
    exists i :: 0 <= i < |s| && SeparatorAt(s, i)
  }

  /** `^(.*)&\/` can match s with the group `(.*)` covering s[..i]. */
  predicate MatchAt(s: string, i: int)
  {
    SeparatorAt(s, i) && LineFree(s[..i])
  }

  /** The longest group below n that the regular expression can match. */
  function LastMatchBelow(s: string, n: nat): (r: Option<nat>)
    requires n <= |s|
    ensures r.Some? ==> r.value < n && MatchAt(s, r.value)
    ensures r.Some? ==> forall j :: r.value < j < n ==> !MatchAt(s, j)
    ensures r.None? ==> forall j :: 0 <= j < n ==> !MatchAt(s, j)
  {
    if n == 0 then None
    else if MatchAt(s, n - 1) then Some(n - 1)
    else LastMatchBelow(s, n - 1)
  }

  /** What the constructor stores: `options` and the bare `filename`. */
  datatype ParsedName = ParsedName(options: seq<string>, filename: string)

  /**
   * `filename.match(optionsRegex)`: on a match at group end i, the options
   * are `match[1].split('&')` and the filename is what `replace` leaves
   * after removing the matched `s[..i] + "&/"`; otherwise no options and the
   * name unchanged.
   */
  function ParseName(name: string): ParsedName
  {
    match LastMatchBelow(name, |name|)
    case None => ParsedName([], name)
    case Some(i) => ParsedName(Split(name[..i], OptionsSep), name[i + 2..])
  }

  /** A name without `&/` has no options and is its own storage key. */
  lemma ParseWithoutSeparator(name: string)
    requires !HasSeparator(name)
    ensures ParseName(name) == ParsedName([], name)
  {
  }

  /** Options are present exactly when the regular expression matches. */
  lemma ParseOptionsIffMatch(name: string)
    ensures ParseName(name).options != [] <==> exists i :: 0 <= i < |name| && MatchAt(name, i)
  {
    var m := LastMatchBelow(name, |name|);
    if m.Some? {
      assert MatchAt(name, m.value);
    }
  }

  /** Every option token is free of `&`, whatever the name. */
  lemma ParseTokensHaveNoSep(name: string)
    ensures forall k :: 0 <= k < |ParseName(name).options| ==> OptionsSep !in ParseName(name).options[k]
  {
  }

  /** The tokens, joined by `&`, then `&/`, then the key, give the name back. */
  lemma ParseRoundTrip(name: string)
    requires ParseName(name).options != []
    ensures Join(ParseName(name).options, OptionsSep) + "&/" + ParseName(name).filename == name
  {
    var i := LastMatchBelow(name, |name|).value;
    JoinSplit(name[..i], OptionsSep);
    assert name[i..i + 2] == "&/";
    assert name == name[..i] + name[i..i + 2] + name[i + 2..];
  }
  /** Two strings without line terminators concatenate to one without line terminators. */
  /** A line-free prefix followed by `&/` and a line-free part stays line-free. */
  lemma LineFreeConcat(a: string, b: string)
    requires LineFree(a) && LineFree(b)
    ensures LineFree(a + b)
  {
    forall k | 0 <= k < |a + b| ensures !IsLineTerminator((a + b)[k]) {
      if k < |a| { assert (a + b)[k] == a[k]; } else { assert (a + b)[k] == b[k - |a|]; }
    }
  }

  /** A match inside the key left by a match at i is a later match in the whole name. */
  lemma MatchInKeyLifts(name: string, i: nat, key: string)
    requires MatchAt(name, i) && key == name[i + 2..]
    ensures forall j :: 0 <= j < |key| && MatchAt(key, j) ==> MatchAt(name, i + 2 + j)
  {
    forall j | 0 <= j < |key| && MatchAt(key, j) ensures MatchAt(name, i + 2 + j) {
      assert key[j] == name[i + 2 + j] && key[j + 1] == name[i + 3 + j];
      assert name[..i + 2 + j] == name[..i] + "&/" + key[..j];
      LineFreeConcat(name[..i], "&/");
      LineFreeConcat(name[..i] + "&/", key[..j]);
    }
  }

  /**
   * Greediness: the bare key that the parser leaves holds no further
   * options segment, so parsing it again changes nothing.
   */
  lemma ParseKeyIsBare(name: string)
    ensures ParseName(ParseName(name).filename) == ParsedName([], ParseName(name).filename)
  {
    var m := LastMatchBelow(name, |name|);
    if m.Some? {
      MatchInKeyLifts(name, m.value, name[m.value + 2..]);
    }
  }

  /** For a name without line terminators, the key contains no `&/` at all. */
  lemma ParseKeyHasNoSeparator(name: string)
    requires LineFree(name)
    ensures !HasSeparator(ParseName(name).filename)
  {
    var key := ParseName(name).filename;
    ParseKeyIsBare(name);
    ParseKeyIsSuffix(name);
    assert LineFree(key) by {
      forall k | 0 <= k < |key| ensures !IsLineTerminator(key[k]) {
        assert key[k] == name[|name| - |key| + k];
      }
    }
    LineFreeWithoutOptions(key);
  }

  /** The key is what is left at the end of the name. */
  lemma ParseKeyIsSuffix(name: string)
    ensures |ParseName(name).filename| <= |name|
    ensures ParseName(name).filename == name[|name| - |ParseName(name).filename|..]
  {
  }

  /** In a line-free string, every `&/` is a match, so no options means no `&/`. */
  lemma LineFreeWithoutOptions(s: string)
    requires LineFree(s) && ParseName(s).options == []
    ensures !HasSeparator(s)
  {
    ParseOptionsIffMatch(s);
    forall i | 0 <= i < |s| ensures !SeparatorAt(s, i) {
      assert !MatchAt(s, i);
      assert LineFree(s[..i]);
    }
  }

  /** After `prefix + "&/"`, a key without `&/` offers the expression no later match. */
  lemma NoSeparatorAfter(prefix: string, key: string)
    requires !HasSeparator(key)
    ensures forall j :: |prefix| < j < |prefix + "&/" + key| ==> !SeparatorAt(prefix + "&/" + key, j)
  {
    var name := prefix + "&/" + key;
    forall j | |prefix| < j < |name| ensures !SeparatorAt(name, j) {
      if j == |prefix| + 1 {
        assert name[j] == '/';
      } else {
        assert name[j] == key[j - |prefix| - 2];
        if j + 1 < |name| {
          assert name[j + 1] == key[j - |prefix| - 1];
          assert !SeparatorAt(key, j - |prefix| - 2);
        }
      }
    }
  }

  /**
   * Parsing inverts the options syntax: tokens free of `&` and of line
   * terminators, then `&/`, then a key without `&/`, parse back to the same
   * tokens, in the same order, and the same key.
   */
  lemma ParseUnparse(tokens: seq<string>, key: string)
    requires |tokens| >= 1
    requires forall k :: 0 <= k < |tokens| ==> OptionsSep !in tokens[k] && LineFree(tokens[k])
    requires !HasSeparator(key)
    ensures ParseName(Join(tokens, OptionsSep) + "&/" + key) == ParsedName(tokens, key)
  {
    var prefix := Join(tokens, OptionsSep);
    JoinLineFree(tokens);
    ParseAtLastSeparator(prefix, key);
    SplitJoin(tokens, OptionsSep);
  }

  /** With a line-free prefix and a key without `&/`, the match is the `&/` between them. */
  lemma ParseAtLastSeparator(prefix: string, key: string)
    requires LineFree(prefix) && !HasSeparator(key)
    ensures ParseName(prefix + "&/" + key) == ParsedName(Split(prefix, OptionsSep), key)
  {
    var name := prefix + "&/" + key;
    assert name[..|prefix|] == prefix;
    assert MatchAt(name, |prefix|);
    NoSeparatorAfter(prefix, key);
    LastMatchIs(name, |prefix|);
    assert name[|prefix| + 2..] == key;
  }

  /** A match with no `&/` after it is the one the greedy group takes. */
  lemma LastMatchIs(name: string, i: nat)
    requires MatchAt(name, i)
    requires forall j :: i < j < |name| ==> !SeparatorAt(name, j)
    ensures LastMatchBelow(name, |name|) == Some(i)
  {
    var m := LastMatchBelow(name, |name|);
    assert m.Some? by { assert i < |name|; }
  }

  /** A leading `&/` with nothing before it gives the single empty token. */
  lemma ParseEmptyPrefix(key: string)
    requires !HasSeparator(key)
    ensures ParseName("&/" + key) == ParsedName([""], key)
  {
    assert Join([""], OptionsSep) + "&/" + key == "&/" + key;
    ParseUnparse([""], key);
  }

  lemma {:induction false} JoinLineFree(tokens: seq<string>)
    requires forall k :: 0 <= k < |tokens| ==> LineFree(tokens[k])
    ensures LineFree(Join(tokens, OptionsSep))
  {
    if |tokens| > 1 {
      JoinLineFree(tokens[1..]);
      LineFreeConcat(tokens[0], [OptionsSep]);
      LineFreeConcat(tokens[0] + [OptionsSep], Join(tokens[1..], OptionsSep));
    }
  }

  /**
   * The group cannot reach past a line terminator: when no `&/` comes
   * before the first line terminator, the name has no options, even if a
   * `&/` follows it.
   */
  lemma ParseStopsAtLineTerminator(name: string, k: nat)
    requires k < |name| && IsLineTerminator(name[k])
    requires forall i :: 0 <= i < k ==> !SeparatorAt(name, i)
    ensures ParseName(name) == ParsedName([], name)
  {
    forall i | 0 <= i < |name| ensures !MatchAt(name, i) {
      if i > k { assert name[..i][k] == name[k]; }
    }
  }

  /** The request of the scenario: one token and the bare image key. */
  lemma ParseScenario()
    ensures ParseName("410x410&/tente.jpg") == ParsedName(["410x410"], "tente.jpg")
  {
    assert "410x410&/tente.jpg" == Join(["410x410"], OptionsSep) + "&/" + "tente.jpg";
    assert !HasSeparator("tente.jpg");
    ParseUnparse(["410x410"], "tente.jpg");
  }
}

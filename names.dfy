/** Player names and the texts shown to the players: how a raw name input
    is trimmed and defaulted, which name a message picks, and the message
    texts themselves. */
module Names {
  import opened Wrappers

  /** The characters JavaScript's `String.prototype.trim` removes: the
      WhiteSpace and LineTerminator code points of ECMAScript (tab, vertical
      tab, form feed, space, no-break space, the byte order mark, the other
      space separators of Unicode category Zs, line feed, carriage return,
      line and paragraph separators). */
  predicate IsSpace(c: char) {
    var n := c as int;
    n == 0x09 || n == 0x0A || n == 0x0B || n == 0x0C || n == 0x0D ||
    n == 0x20 || n == 0xA0 || n == 0x1680 || (0x2000 <= n <= 0x200A) ||
    n == 0x2028 || n == 0x2029 || n == 0x202F || n == 0x205F ||
    n == 0x3000 || n == 0xFEFF
  }

  /** Every character of `s` from `lo` up to (not including) `hi` is white space. */
  predicate SpaceBetween(s: string, lo: int, hi: int) {
    forall k :: lo <= k < hi && 0 <= k < |s| ==> IsSpace(s[k])
  }

  predicate AllSpace(s: string) {
    SpaceBetween(s, 0, |s|)
  }

  /** The first position at or after `i` that does not hold white space
      (or the end of `s`). */
  function SkipSpaces(s: string, i: nat): (j: nat)
    requires i <= |s|
    ensures i <= j <= |s|
    ensures SpaceBetween(s, i, j)
    ensures j < |s| ==> !IsSpace(s[j])
    decreases |s| - i
  {
    if i == |s| || !IsSpace(s[i]) then i
    else SkipSpaces(s, i + 1)
  }

  /** The position just after the last character before `j`, and not before
      `lo`, that is not white space (or `lo`). */
  function SkipSpacesBack(s: string, lo: nat, j: nat): (k: nat)
    requires lo <= j <= |s|
    ensures lo <= k <= j
    ensures SpaceBetween(s, k, j)
    ensures k > lo ==> !IsSpace(s[k - 1])
    decreases j - lo
  {
    if j == lo || !IsSpace(s[j - 1]) then j
    else SkipSpacesBack(s, lo, j - 1)
  }

  /** `s` without its leading and trailing white space. */
  function Trim(s: string): (r: string)
    ensures exists i, j :: 0 <= i <= j <= |s| && r == s[i..j]
                           && SpaceBetween(s, 0, i) && SpaceBetween(s, j, |s|)
    ensures r == [] <==> AllSpace(s)
    ensures r != [] ==> !IsSpace(r[0]) && !IsSpace(r[|r| - 1])
  {
    var i := SkipSpaces(s, 0);
    var j := SkipSpacesBack(s, i, |s|);
    assert i < |s| ==> j > i;
    s[i..j]
  }

  /** Trimming twice trims nothing more. */
  lemma TrimIdempotent(s: string)
    ensures Trim(Trim(s)) == Trim(s)
  {
    var r := Trim(s);
    if r != [] {
      assert SkipSpaces(r, 0) == 0;
      assert SkipSpacesBack(r, 0, |r|) == |r|;
    }
  }

  /** The text of a name input: JavaScript's `value || ''`, so an absent
      value reads as the empty string. */
  function InputText(value: Option<string>): (text: string)
    ensures value.None? ==> text == ""
    ensures value.Some? ==> text == value.value
  {
    match value
    case None => ""
    case Some(s) => s
  }

  /** The name a player gets from an input: the trimmed text, or `fallback`
      when nothing but white space was typed. */
  function NameOrDefault(value: Option<string>, fallback: string): (name: string)
    ensures AllSpace(InputText(value)) ==> name == fallback
    ensures !AllSpace(InputText(value)) ==> name != "" && name == Trim(InputText(value))
    ensures fallback != "" ==> name != ""
  {
    var t := Trim(InputText(value));
    if t != "" then t else fallback
  }

  const DefaultName1: string := "Player 1"
  const DefaultName2: string := "Player 2"

  /** The name of the player whose turn it is: player 1 plays X, player 2
      plays O. */
  function PlayerName(isXTurn: bool, player1: string, player2: string): (name: string)
    ensures isXTurn ==> name == player1
    ensures !isXTurn ==> name == player2
  {
    if isXTurn then player1 else player2
  }

  /** The prompt telling `name` to move. The text is the name followed by
      a fixed suffix, so the name can be read back from it even when one
      player's name is a prefix of the other's. */
  function TurnText(name: string): (text: string)
    ensures |text| > |name| && text[..|name|] == name
    ensures text[|name|..] == ", you're up"
  {
    name + ", you're up"
  }

  /** The message congratulating `name`: the name followed by a fixed
      suffix, which differs from the prompt's. */
  function WinText(name: string): (text: string)
    ensures |text| > |name| && text[..|name|] == name
    ensures text[|name|..] == " congratulations you won!"
  {
    name + " congratulations you won!"
  }

  const DrawText: string := "It's a draw!"

  /** Two blank inputs give both players their default names. */
  lemma BlankInputsGiveDefaults()
    ensures NameOrDefault(Some(""), DefaultName1) == "Player 1"
    ensures NameOrDefault(Some("  "), DefaultName2) == "Player 2"
    ensures NameOrDefault(None, DefaultName1) == "Player 1"
  {
    assert AllSpace("  ");
  }

  /** A typed name without surrounding white space is kept as typed. */
  lemma TypedNameIsKept()
    ensures NameOrDefault(Some("Alice"), DefaultName1) == "Alice"
  {
    assert SkipSpaces("Alice", 0) == 0;
    assert SkipSpacesBack("Alice", 0, 5) == 5;
  }

  /** A typed name loses its surrounding white space. */
  lemma PaddedNameIsTrimmed()
    ensures NameOrDefault(Some(" Bob\t"), DefaultName2) == "Bob"
  {
    assert SkipSpaces(" Bob\t", 0) == 1 by {
      assert SkipSpaces(" Bob\t", 1) == 1;
    }
    assert SkipSpacesBack(" Bob\t", 1, 5) == 4 by {
      assert SkipSpacesBack(" Bob\t", 1, 4) == 4;
    }
  }
}

/** What the matcher runtime's four tests do to the position, on the whole input. */
module PegMatch {
  import opened Peg

  datatype Hit = Hit(ok: bool, pos: nat)

  function DotAt(input: seq<Byte>, p: nat): Hit {
    if p < |input| then Hit(true, p + 1) else Hit(false, p)
  }

  function CharAt(input: seq<Byte>, p: nat, c: Byte): Hit {
    if p < |input| && input[p] == c then Hit(true, p + 1) else Hit(false, p)
  }

  function ClassAt(input: seq<Byte>, p: nat, cs: set<Byte>): Hit {
    if p < |input| && input[p] in cs then Hit(true, p + 1) else Hit(false, p)
  }

  /** Compare byte by byte.  A mismatch puts the position back to `start`; running out of
      input leaves it where it got to. */
  function StringAt(input: seq<Byte>, start: nat, p: nat, text: seq<Byte>): Hit
    decreases |text|
  {
    if text == [] then Hit(true, p)
    else if p >= |input| then Hit(false, p)
    else if input[p] != text[0] then Hit(false, start)
    else StringAt(input, start, p + 1, text[1..])
  }

  lemma {:induction false} StringAtPrefix(input: seq<Byte>, start: nat, p: nat, text: seq<Byte>)
    requires p <= |input| || text != []
    ensures StringAt(input, start, p, text).ok <==> AtPrefix(input, p, text)
    ensures AtPrefix(input, p, text) ==> StringAt(input, start, p, text).pos == p + |text|
    decreases |text|
  {
    if text != [] && p < |input| && input[p] == text[0] {
      StringAtPrefix(input, start, p + 1, text[1..]);
      if p + |text| <= |input| {
        assert input[p..p + |text|] == [input[p]] + input[p + 1..p + |text|];
        assert text == [text[0]] + text[1..];
      }
    }
  }

  lemma CharAtPrefix(input: seq<Byte>, p: nat, text: seq<Byte>)
    requires |text| == 1
    ensures CharAt(input, p, text[0]).ok <==> AtPrefix(input, p, text)
  {
    if p < |input| { assert input[p..p + 1] == [input[p]]; }
  }

  /** Where a failing literal test leaves the position: at the end of the input when the rest of
      the input is a proper prefix of the literal, and back at the start in every other case. */
  lemma {:induction false} StringAtFails(input: seq<Byte>, start: nat, p: nat, text: seq<Byte>)
    requires p <= |input| && !StringAt(input, start, p, text).ok
    ensures StringAt(input, start, p, text).pos
         == if |input| - p < |text| && input[p..] == text[..|input| - p] then |input| else start
    decreases |text|
  {
    if p == |input| {
      assert input[p..] == text[..0];
    } else if input[p] == text[0] {
      StringAtFails(input, start, p + 1, text[1..]);
      assert input[p..] == [text[0]] + input[p + 1..];
      if |input| - p < |text| {
        assert text[..|input| - p] == [text[0]] + text[1..][..|input| - (p + 1)];
      }
    } else if |input| - p < |text| {
      assert input[p..][0] != text[..|input| - p][0];
    }
  }

  /** So the position stays advanced exactly when some but not all of the literal is there and the
      input ends: for example "a" where "ab" is wanted. */
  lemma StringAtLeavesAdvanced(input: seq<Byte>, p: nat, text: seq<Byte>)
    requires p <= |input|
    ensures var hit := StringAt(input, p, p, text);
            (!hit.ok && hit.pos != p) <==> p < |input| && |input| - p < |text| && input[p..] == text[..|input| - p]
  {
    StringAtPrefix(input, p, p, text);
    if !StringAt(input, p, p, text).ok { StringAtFails(input, p, p, text); }
  }
}

/** Utils: string helpers used by the effects. */
module Utils {

  /** The strings of `parts` joined end to end. */
  function Concat(parts: seq<string>): string
  {
    if parts == [] then "" else Concat(parts[..|parts| - 1]) + parts[|parts| - 1]
  }

  /**
   * Utils.ParseString: splits `input` into one single-character string per
   * character, in order, so that joining the pieces gives `input` back.
   */
  method ParseString(input: string) returns (parsed: seq<string>)
    ensures |parsed| == |input|
    ensures forall k :: 0 <= k < |input| ==> parsed[k] == [input[k]]
    ensures Concat(parsed) == input
  {
    parsed := [];
    for i := 0 to |input|
      invariant |parsed| == i
      invariant forall k :: 0 <= k < i ==> parsed[k] == [input[k]]
      invariant Concat(parsed) == input[..i]
    {
      parsed := parsed + [[input[i]]];
      assert parsed[..|parsed| - 1] == parsed[..i];
      assert input[..i + 1] == input[..i] + [input[i]];
    }
    assert input[..|input|] == input;
  }
}

/** The string helpers of the contract: `might_string`, `push_str_cleaner` and the
    delimiter used in ticket titles and token ids. */
module Strings {
  import opened Wrappers

  /** `TITLE_DELIMETER` (sic) in the source. */
  const TITLE_DELIMITER: string := " - "

  /** An absent string reads as the empty one. */
  function MightString(option: Option<string>): (r: string)
    ensures option.Some? ==> r == option.value
    ensures option.None? ==> r == ""
  {
    option.GetOr("")
  }

  /** The concatenation of all pieces, in order. */
  function Concat(pieces: seq<string>): string {
    if |pieces| == 0 then "" else pieces[0] + Concat(pieces[1..])
  }

  /** Appends every piece to `main`, left to right, as `push_str` does in a loop. */
  function PushStr(main: string, pieces: seq<string>): (r: string)
    ensures r == main + Concat(pieces)
    decreases |pieces|
  {
    if |pieces| == 0 then main
    else PushStr(main + pieces[0], pieces[1..])
  }

  /** The two shapes the contract uses: a category title and a ticket title. */
  lemma PushStrTwo(main: string, a: string, b: string)
    ensures PushStr(main, [a, b]) == main + a + b
  {
    assert [a, b][1..] == [b];
    assert [b][1..] == [];
  }

  lemma PushStrFour(main: string, a: string, b: string, c: string, d: string)
    ensures PushStr(main, [a, b, c, d]) == main + a + b + c + d
  {
    assert [a, b, c, d][1..] == [b, c, d];
    assert [b, c, d][1..] == [c, d];
    assert [c, d][1..] == [d];
    assert [d][1..] == [];
    assert Concat([d]) == d;
    assert Concat([c, d]) == c + d;
    assert Concat([b, c, d]) == b + c + d;
    assert Concat([a, b, c, d]) == a + b + c + d;
  }
}

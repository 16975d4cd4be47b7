/** Ticket ids: `series_id + " - " + ordinal`. Because series ids are decimal numerals
    and the delimiter starts with a space, an id determines its series and ordinal. */
module TokenIds {
  import opened Decimal
  import opened Strings
  import opened TicketTypes

  function TokenIdOf(seriesId: TokenSeriesId, ordinal: nat): TokenId {
    seriesId + TITLE_DELIMITER + NatToString(ordinal)
  }

  /** Distinct (series, ordinal) pairs give distinct ticket ids. */
  lemma TokenIdInjective(s1: TokenSeriesId, o1: nat, s2: TokenSeriesId, o2: nat)
    requires IsDigits(s1) && IsDigits(s2)
    ensures TokenIdOf(s1, o1) == TokenIdOf(s2, o2) ==> s1 == s2 && o1 == o2
  {
    var t1, t2 := TokenIdOf(s1, o1), TokenIdOf(s2, o2);
    if t1 == t2 {
      // The first space of the id ends the series id, since series ids are digits.
      SpaceEndsSeriesId(s1, NatToString(o1));
      SpaceEndsSeriesId(s2, NatToString(o2));
      assert |s1| == |s2|;
      assert s1 == t1[..|s1|] == t2[..|s2|] == s2;
      assert NatToString(o1) == t1[|s1| + 3..] == t2[|s2| + 3..] == NatToString(o2);
      NatToStringInjective(o1, o2);
    }
  }

  /** In `seriesId + " - " + rest` the first space sits right after the series id. */
  lemma SpaceEndsSeriesId(seriesId: TokenSeriesId, rest: string)
    requires IsDigits(seriesId)
    ensures (seriesId + TITLE_DELIMITER + rest)[|seriesId|] == ' '
    ensures forall i :: 0 <= i < |seriesId| ==> (seriesId + TITLE_DELIMITER + rest)[i] != ' '
  {
  }

  /** The ids of the first `n` tickets of a series. */
  function IssuedIds(seriesId: TokenSeriesId, n: nat): set<TokenId> {
    if n == 0 then {} else IssuedIds(seriesId, n - 1) + {TokenIdOf(seriesId, n)}
  }

  /** No id outside the first `n` of a series is among them. */
  lemma {:induction false} IssuedIdsExclude(seriesId: TokenSeriesId, n: nat, other: TokenSeriesId, k: nat)
    requires IsDigits(seriesId) && IsDigits(other)
    requires other != seriesId || k > n
    ensures TokenIdOf(other, k) !in IssuedIds(seriesId, n)
  {
    if n > 0 {
      TokenIdInjective(other, k, seriesId, n);
      IssuedIdsExclude(seriesId, n - 1, other, k);
    }
  }

  /** The first `n` ids of a series are `n` distinct ids. */
  lemma {:induction false} IssuedIdsCount(seriesId: TokenSeriesId, n: nat)
    requires IsDigits(seriesId)
    ensures |IssuedIds(seriesId, n)| == n
  {
    if n > 0 {
      IssuedIdsCount(seriesId, n - 1);
      IssuedIdsExclude(seriesId, n - 1, seriesId, n);
    }
  }
}

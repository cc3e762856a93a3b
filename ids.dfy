/**
 * Patient identifiers and their text form.
 *
 * The store generates identifiers (java.util.UUID in the source); they are modelled
 * as unbounded numbers.  `IdString` is the text written into events and billing
 * requests: the lower-case hexadecimal digits of the identifier.
 */
module Ids {
  import opened Outcomes

  type Uuid = nat

  predicate IsHexChar(c: char) {
    '0' <= c <= '9' || 'a' <= c <= 'f'
  }

  function HexChar(d: nat): (c: char)
    requires d < 16
    ensures IsHexChar(c)
  {
    if d < 10 then ('0' as int + d) as char else ('a' as int + d - 10) as char
  }

  function HexValue(c: char): (d: nat)
    requires IsHexChar(c)
    ensures d < 16 && HexChar(d) == c
  {
    if c <= '9' then c as int - '0' as int else c as int - 'a' as int + 10
  }

  /** The identifier's text: most significant hexadecimal digit first. */
  function IdString(u: Uuid): (s: string)
    ensures |s| >= 1
    ensures forall i :: 0 <= i < |s| ==> IsHexChar(s[i])
  {
    if u < 16 then [HexChar(u)] else IdString(u / 16) + [HexChar(u % 16)]
  }

  /** Reads an identifier back from its text; None for text that is not hexadecimal. */
  function ParseId(s: string): (r: Option<Uuid>)
    ensures r.Some? ==> |s| >= 1
  {
    if s == [] || !IsHexChar(s[|s| - 1]) then None
    else if |s| == 1 then Some(HexValue(s[0]))
    else match ParseId(s[..|s| - 1])
      case None => None
      case Some(v) => Some(16 * v + HexValue(s[|s| - 1]))
  }

  /** The text of an identifier reads back as that identifier. */
  lemma {:induction false} ParseIdString(u: Uuid)
    ensures ParseId(IdString(u)) == Some(u)
  {
    if u >= 16 {
      var s := IdString(u);
      assert s[..|s| - 1] == IdString(u / 16);
      ParseIdString(u / 16);
      assert HexValue(HexChar(u % 16)) == u % 16;
    } else {
      assert HexValue(HexChar(u)) == u;
    }
  }

  /** Distinct identifiers have distinct texts. */
  lemma IdStringInjective(u: Uuid, v: Uuid)
    ensures IdString(u) == IdString(v) ==> u == v
  {
    ParseIdString(u);
    ParseIdString(v);
  }
}

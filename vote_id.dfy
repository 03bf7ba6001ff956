/**
 * `VoteId`: the composite key of a vote, a request id and a voter name,
 * with setters and value equality.
 */
module VoteKeys {
  import opened Wrappers
  import JavaText

  /** The argument of `equals(Object o)`. */
  datatype Other = Null | AVoteId(key: VoteId) | Foreign

  class VoteId {
    var requestId: Option<JavaText.Long>
    var voter: Option<string>

    /** `new VoteId()`. */
    constructor Empty()
      ensures requestId.None? && voter.None?
    {
      requestId, voter := None, None;
    }

    /** `new VoteId(requestId, voter)`. */
    constructor (requestId: Option<JavaText.Long>, voter: Option<string>)
      ensures this.requestId == requestId && this.voter == voter
    {
      this.requestId, this.voter := requestId, voter;
    }

    /** `setRequestId`: the voter is untouched. */
    method SetRequestId(requestId: Option<JavaText.Long>)
      modifies this`requestId
      ensures this.requestId == requestId && voter == old(voter)
    {
      this.requestId := requestId;
    }

    /** `setVoter`: the request id is untouched. */
    method SetVoter(voter: Option<string>)
      modifies this`voter
      ensures this.voter == voter && requestId == old(requestId)
    {
      this.voter := voter;
    }

    /**
     * `equals`: the same object, or another `VoteId` whose two fields are
     * equal under `Objects.equals` (two nulls are equal).
     */
    function Equals(o: Other): (r: bool)
      reads this, if o.AVoteId? then {o.key} else {}
      ensures r <==> o.AVoteId? && o.key.requestId == requestId && o.key.voter == voter
    {
      if o.AVoteId? && o.key == this then true
      else if o.Null? || o.Foreign? then false
      else NullSafeEquals(requestId, o.key.requestId) && NullSafeEquals(voter, o.key.voter)
    }

    /** `hashCode`: `Objects.hash(requestId, voter)`. */
    function HashCode(): (r: int)
      reads this
      ensures -JavaText.TWO_31 <= r < JavaText.TWO_31
      ensures requestId.None? && voter.None? ==> r == 961
    {
      JavaText.Hash2(match requestId case None => 0 case Some(v) => JavaText.LongHash(v),
                     match voter case None => 0 case Some(s) => JavaText.StringHash(s))
    }
  }

  /** `Objects.equals(a, b)`. */
  function NullSafeEquals<T(==)>(a: Option<T>, b: Option<T>): bool
  {
    match a
    case None => b.None?
    case Some(x) => b.Some? && x == b.value
  }

  /** `equals` is reflexive, symmetric and transitive, and false for null or another class. */
  lemma EqualsIsEquivalence(a: VoteId, b: VoteId, c: VoteId)
    ensures a.Equals(AVoteId(a))
    ensures a.Equals(AVoteId(b)) ==> b.Equals(AVoteId(a))
    ensures a.Equals(AVoteId(b)) && b.Equals(AVoteId(c)) ==> a.Equals(AVoteId(c))
    ensures !a.Equals(Null) && !a.Equals(Foreign)
  {
  }

  /** Equal keys have equal hash codes, which are 32-bit signed values. */
  lemma HashConsistentWithEquals(a: VoteId, b: VoteId)
    requires a.Equals(AVoteId(b))
    ensures a.HashCode() == b.HashCode()
    ensures -JavaText.TWO_31 <= a.HashCode() < JavaText.TWO_31
  {
  }
}

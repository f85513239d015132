/** The stored order document both order queries read. */
module Orders {
  import opened Results
  import opened Text

  /** A MongoDB object id, written as the 24 lower-case hex digits `toHexString` gives. */
  type ObjectId = string

  /** A stored order; `event` and `buyer` reference an event and a user by id. */
  datatype Order = Order(id: ObjectId, totalAmount: string, createdAt: int, event: ObjectId, buyer: ObjectId)

  const ObjectIdHexLength: nat := 24

  /** The ids `new ObjectId(s)` accepts: exactly 24 hex digits, either case.
      Folding the case of an accepted id gives its canonical form. */
  predicate IsObjectIdHex(s: string)
    ensures IsObjectIdHex(s) ==> s != "" && IsCanonicalObjectId(Lower(s))
  {
    |s| == ObjectIdHexLength && forall i :: 0 <= i < |s| ==> IsHexDigit(s[i])
  }

  /** An id as `toHexString` writes it: 24 lower-case hex digits. */
  predicate IsCanonicalObjectId(s: string) {
    |s| == ObjectIdHexLength && forall i :: 0 <= i < |s| ==> '0' <= s[i] <= '9' || 'a' <= s[i] <= 'f'
  }

  /** `new ObjectId(s)`, and the cast Mongoose applies to an id in a query
      filter: the id `s` denotes, in canonical form, or nothing when `s` is
      not 24 hex digits (the constructor throws, the cast fails). */
  function ParseObjectId(s: string): (id: Option<ObjectId>)
    ensures id.Some? <==> IsObjectIdHex(s)
    ensures id.Some? ==> IsCanonicalObjectId(id.value) && id.value == Lower(s)
  {
    if IsObjectIdHex(s) then Some(Lower(s)) else None
  }

  /** A canonical id parses to itself. */
  lemma ParseCanonicalObjectId(s: string)
    requires IsCanonicalObjectId(s)
    ensures ParseObjectId(s) == Some(s)
  {
    assert Lower(s) == s;
  }
}

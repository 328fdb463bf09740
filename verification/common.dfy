/** Small shared vocabulary: optional values, success/failure results,
    raw payloads, the truthiness test Python applies to optional settings, and the
    substring test behind Python's `in` on strings. */
module Common {

  datatype Option<+T> = None | Some(value: T)

  datatype Result<+T, +E> = Success(value: T) | Failure(error: E)

  /** Raw bytes: a message payload or a blob's contents. */
  type Payload = seq<bv8>

  /** An optional text setting counts as given when it is set and non-empty
      (Python treats both `None` and `""` as false in `all([...])`). */
  predicate Given(o: Option<string>) {
    o.Some? && o.value != ""
  }

  /** Every setting of the list is given. */
  predicate AllGiven(os: seq<Option<string>>) {
    forall i :: 0 <= i < |os| ==> Given(os[i])
  }

  /** `needle` occurs in `hay` starting at index `i`. */
  ghost predicate OccursAt(needle: string, hay: string, i: int) {
    0 <= i && i + |needle| <= |hay| && hay[i..i + |needle|] == needle
  }

  /** Python's `needle in hay` for strings: a contiguous occurrence somewhere. */
  ghost predicate IsSubstring(needle: string, hay: string) {
    exists i :: OccursAt(needle, hay, i)
  }

  /** Moving past a non-matching first position neither gains nor loses
      an occurrence. */
  lemma {:induction false} ShiftOccurrence(needle: string, hay: string)
    requires |needle| <= |hay| && 0 < |hay|
    requires !OccursAt(needle, hay, 0)
    ensures IsSubstring(needle, hay) <==> IsSubstring(needle, hay[1..])
  {
    if IsSubstring(needle, hay) {
      var i :| OccursAt(needle, hay, i);
      assert i >= 1;
      assert hay[1..][i - 1..i - 1 + |needle|] == hay[i..i + |needle|];
      assert OccursAt(needle, hay[1..], i - 1);
    }
    if IsSubstring(needle, hay[1..]) {
      var j :| OccursAt(needle, hay[1..], j);
      assert hay[1..][j..j + |needle|] == hay[j + 1..j + 1 + |needle|];
      assert OccursAt(needle, hay, j + 1);
    }
  }

  /** Executable substring search, scanning left to right. */
  function Contains(hay: string, needle: string): (r: bool)
    ensures r <==> IsSubstring(needle, hay)
    decreases |hay|
  {
    if |needle| > |hay| then
      false
    else if hay[..|needle|] == needle then
      assert OccursAt(needle, hay, 0);
      true
    else
      ShiftOccurrence(needle, hay);
      Contains(hay[1..], needle)
  }
}

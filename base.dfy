/**
 * The columns every table shares: a primary key generated on insert and
 * two timestamps. Identifiers are fresh naturals handed out by the store
 * and time is an abstract, monotone counter.
 */
module Base {

  type Id = nat
  type Time = nat

  datatype Meta = Meta(id: Id, createdAt: Time, updatedAt: Time)

  /** The column defaults on insert: a fresh key and both timestamps from one clock reading. */
  function NewMeta(id: Id, now: Time): (m: Meta)
    ensures m.id == id
    ensures m.createdAt == now && m.updatedAt == now
  {
    Meta(id, now, now)
  }

  /**
   * The `onupdate` hook: when the row is written by an UPDATE, only
   * `updatedAt` is refreshed; the key and `createdAt` never change.
   */
  function OnUpdate(m: Meta, changed: bool, now: Time): (m': Meta)
    ensures m'.id == m.id && m'.createdAt == m.createdAt
    ensures changed ==> m'.updatedAt == now
    ensures !changed ==> m' == m
  {
    if changed then m.(updatedAt := now) else m
  }

  /** The timestamps of a row are ordered and not ahead of the clock. */
  predicate StampedBy(m: Meta, clock: Time) {
    m.createdAt <= m.updatedAt <= clock
  }

  /** A refresh at a later clock reading keeps the timestamps ordered. */
  lemma OnUpdateKeepsStamps(m: Meta, changed: bool, now: Time)
    requires StampedBy(m, now)
    ensures StampedBy(OnUpdate(m, changed, now), now)
  {
  }

  /** A nonempty set has an element (stated for the element types the model picks from). */
  lemma IntSetHasElement(s: set<int>)
    requires s != {}
    ensures exists x :: x in s
  {
    if forall x :: x !in s {
      assert false;
    }
  }

  lemma IdSetHasElement(s: set<Id>)
    requires s != {}
    ensures exists x :: x in s
  {
    if forall x :: x !in s {
      assert false;
    }
  }
}

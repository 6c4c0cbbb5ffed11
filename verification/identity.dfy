/**
 * `getUsername`/`getGroupname` (Go) and `get_username`/`get_groupname`
 * (Python): the name the system database gives for a numeric id, or the id
 * in decimal when the lookup fails.
 */
module Identity {
  import opened Basics
  import opened Decimal

  /**
   * `lookup` stands for the database query (`user.LookupId`,
   * `user.LookupGroupId`, `pwd.getpwuid`, `grp.getgrgid`): `None` is the
   * error or the `KeyError`.
   */
  function DisplayName(lookup: int -> Option<string>, id: int): (r: string)
    ensures lookup(id).Some? ==> r == lookup(id).value
    ensures lookup(id).None? ==> ParseInt(r) == Some(id)
    ensures lookup(id).None? ==> forall t :: ParseInt(t) == Some(id) ==> t == r
  {
    match lookup(id)
    case Some(name) => name
    case None =>
      ItoaRoundTrip(id);
      assert forall t :: ParseInt(t) == Some(id) ==> t == Itoa(id) by {
        forall t | ParseInt(t) == Some(id) ensures t == Itoa(id) {
          ParseIntCanonical(t, id);
        }
      }
      Itoa(id)
  }

  /** Without a database entry, two ids print alike only when they are the same id. */
  lemma FallbackInjective(lookup: int -> Option<string>, a: int, b: int)
    requires lookup(a).None? && lookup(b).None?
    ensures DisplayName(lookup, a) == DisplayName(lookup, b) <==> a == b
  {
    ItoaInjective(a, b);
  }
}

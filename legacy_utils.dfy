/** The string helper and change conversion of the older service variant (docs/utils.rs). */
module LegacyUtils {
  import Proto
  import Events
  import Utils

  /**
   * `to_remove_range` as written in the older variant: the same loop as in
   * the newer crate, so it is specified by the same reference definition.
   */
  method ToRemoveRange(s: string, start: nat, stop: nat) returns (r: string)
    ensures r == Utils.RemoveRange(s, start, stop)
    ensures start <= stop ==> r == s[..Utils.Min(start, |s|)] + s[Utils.Min(stop, |s|)..]
    ensures start >= stop || start >= |s| ==> r == s
    ensures |r| <= |s|
  {
    r := "";
    for i := 0 to |s|
      invariant r == Utils.RemoveRange(s[..i], start, stop)
    {
      assert s[..i + 1][..i] == s[..i];
      if start > i || stop < i + 1 {
        r := r + [s[i]];
      }
    }
    assert s[..|s|] == s;
    if start <= stop {
      Utils.RemoveRangeSplice(s, start, stop);
    }
    if start >= stop || start >= |s| {
      Utils.RemoveRangeIdentity(s, start, stop);
    }
    Utils.RemoveRangeLength(s, start, stop);
  }

  /** `Into<doc_event_write::Change>`: each variant maps to its namesake with the payload unchanged. */
  function ToEventChange(c: Proto.Change): (e: Events.EventChange)
    ensures c.Insert? <==> e.Insert?
    ensures c.Remove? <==> e.Remove?
    ensures c.Replace? <==> e.Replace?
    ensures c.Insert? ==> e.insert == c.insert
    ensures c.Remove? ==> e.remove == c.remove
    ensures c.Replace? ==> e.replace == c.replace
  {
    match c
    case Insert(insert) => Events.Insert(insert)
    case Remove(remove) => Events.EventChange.Remove(remove)
    case Replace(replace) => Events.Replace(replace)
  }

  /** Distinct edits stay distinct once converted. */
  lemma ToEventChangeInjective(a: Proto.Change, b: Proto.Change)
    requires ToEventChange(a) == ToEventChange(b)
    ensures a == b
  {
  }
}

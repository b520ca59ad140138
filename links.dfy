/** Link tables: `product_discounts` (a discount owns price ids) and
    `product_categories` (a product owns category ids). Both are rewritten by
    "delete every link of the owner, then insert the new ones in order". */
module Links {
  import opened Base

  /** One link row. `deleted` is the `deleted_at` marker; no operation of the
      model sets it, but the order workflow filters on it. */
  datatype Link = Link(owner: int, member: int, deleted: bool)

  /** The members linked to `owner`, in table order. */
  function OwnedBy(links: seq<Link>, owner: int): (ms: seq<int>)
    ensures |ms| <= |links|
    ensures forall m :: m in ms <==> exists i :: 0 <= i < |links| && links[i].owner == owner && links[i].member == m
  {
    if links == [] then []
    else
      var rest := OwnedBy(links[1..], owner);
      assert forall i :: 1 <= i < |links| ==> links[i] == links[1..][i - 1];
      if links[0].owner == owner then [links[0].member] + rest else rest
  }

  /** `delete from <links> where owner = $1`. */
  function Without(links: seq<Link>, owner: int): (out: seq<Link>)
    ensures forall l :: l in out <==> l in links && l.owner != owner
  {
    if links == [] then []
    else if links[0].owner == owner then Without(links[1..], owner)
    else [links[0]] + Without(links[1..], owner)
  }

  /** The rows the insert loop adds for `members`, one per entry, in order. */
  function Fresh(owner: int, members: seq<int>): (out: seq<Link>)
    ensures |out| == |members|
    ensures forall i :: 0 <= i < |out| ==> out[i] == Link(owner, members[i], false)
  {
    if members == [] then [] else [Link(owner, members[0], false)] + Fresh(owner, members[1..])
  }

  /** Delete every link of `owner`, then insert `members`. */
  function Replace(links: seq<Link>, owner: int, members: seq<int>): seq<Link>
  {
    Without(links, owner) + Fresh(owner, members)
  }

  lemma {:induction false} OwnedByAppend(a: seq<Link>, b: seq<Link>, owner: int)
    ensures OwnedBy(a + b, owner) == OwnedBy(a, owner) + OwnedBy(b, owner)
  {
    if a == [] {
      assert a + b == b;
    } else {
      assert (a + b)[1..] == a[1..] + b;
      OwnedByAppend(a[1..], b, owner);
    }
  }

  /** The links of `owner` that `Fresh` adds are exactly `members`. */
  lemma {:induction false} OwnedByFresh(owner: int, members: seq<int>, who: int)
    ensures OwnedBy(Fresh(owner, members), who) == (if who == owner then members else [])
  {
    if members != [] {
      var f := Fresh(owner, members);
      assert f[1..] == Fresh(owner, members[1..]);
      OwnedByFresh(owner, members[1..], who);
    }
  }

  lemma {:induction false} OwnedByWithout(links: seq<Link>, owner: int, who: int)
    ensures OwnedBy(Without(links, owner), who) == (if who == owner then [] else OwnedBy(links, who))
  {
    if links != [] {
      OwnedByWithout(links[1..], owner, who);
      if links[0].owner != owner {
        assert ([links[0]] + Without(links[1..], owner))[1..] == Without(links[1..], owner);
      }
    }
  }

  /** After a replace the owner's links are exactly the new members, in
      order, and every other owner's links are as before. */
  lemma ReplaceExact(links: seq<Link>, owner: int, members: seq<int>, who: int)
    ensures OwnedBy(Replace(links, owner, members), who) ==
            (if who == owner then members else OwnedBy(links, who))
  {
    OwnedByAppend(Without(links, owner), Fresh(owner, members), who);
    OwnedByWithout(links, owner, who);
    OwnedByFresh(owner, members, who);
  }

  /** Replacing twice with the same members is the same as replacing once. */
  lemma ReplaceIdempotent(links: seq<Link>, owner: int, members: seq<int>, who: int)
    ensures OwnedBy(Replace(Replace(links, owner, members), owner, members), who) ==
            OwnedBy(Replace(links, owner, members), who)
  {
    ReplaceExact(Replace(links, owner, members), owner, members, who);
    ReplaceExact(links, owner, members, who);
  }

  /** The owners of the live links of `member`, in table order. */
  function OwnersOf(links: seq<Link>, member: int): (os: seq<int>)
    ensures forall o :: o in os <==>
              exists i :: 0 <= i < |links| && links[i].member == member && !links[i].deleted && links[i].owner == o
  {
    if links == [] then []
    else
      var rest := OwnersOf(links[1..], member);
      assert forall i :: 1 <= i < |links| ==> links[i] == links[1..][i - 1];
      if links[0].member == member && !links[0].deleted then [links[0].owner] + rest else rest
  }

  /** A `query_one` for the owner of `member`'s live link: a value only when
      exactly one row matches. */
  function SoleOwner(links: seq<Link>, member: int): (o: Option<int>)
    ensures o.Some? <==> |OwnersOf(links, member)| == 1
    ensures o.Some? ==> OwnersOf(links, member) == [o.value]
  {
    var os := OwnersOf(links, member);
    if |os| == 1 then Some(os[0]) else None
  }
}

/**
 * The project gallery's pure rules: how a requested image index is wrapped into range,
 * which role (the `active`, `next` or `prev` class, or none) each image gets for a
 * given active index, the roles the modal starts with, and which navigation dots are lit.
 */
module Gallery {

  /** The class a gallery image carries besides `gallery-item`. */
  datatype Role = Plain | Active | Next | Prev

  /**
   * `updateGallery`'s wrap of a requested index over `total` images: a negative
   * request goes to the last image and one past the end goes to the first; the index
   * is not taken modulo `total`. With no images, a negative request yields -1.
   */
  function Wrap(requested: int, total: nat): (k: int)
    ensures total >= 1 ==> 0 <= k < total
    ensures 0 <= requested < total ==> k == requested
    ensures requested < 0 ==> k == total - 1
    ensures requested >= total ==> k == 0
  {
    var k := if requested < 0 then total - 1 else requested;
    if k >= total then 0 else k
  }

  /** The image after `k`, cyclically (`(k + 1) % total`). */
  function Succ(k: nat, total: nat): (j: nat)
    requires k < total
    ensures j < total
    ensures j == if k + 1 < total then k + 1 else 0
  {
    (k + 1) % total
  }

  /** The image before `k`, cyclically (`(k - 1 + total) % total`). */
  function Pred(k: nat, total: nat): (j: nat)
    requires k < total
    ensures j < total
    ensures j == if k > 0 then k - 1 else total - 1
  {
    (k - 1 + total) % total
  }

  /**
   * The role `updateGallery` gives image `i` when `k` is active: the active image first,
   * then the one after it, then the one before it, each only if no earlier case took it.
   */
  function RoleAt(i: nat, k: nat, total: nat): (r: Role)
    requires k < total
    ensures r == Active <==> i == k
    ensures r == Next <==> i != k && i == Succ(k, total)
    ensures r == Prev <==> i != k && i != Succ(k, total) && i == Pred(k, total)
  {
    if i == k then Active
    else if i == Succ(k, total) then Next
    else if i == Pred(k, total) then Prev
    else Plain
  }

  /** The roles of all `total` images when `k` is active. */
  function Roles(k: int, total: nat): (roles: seq<Role>)
    requires total == 0 || 0 <= k < total
    ensures |roles| == total
  {
    seq(total, i requires 0 <= i < total => RoleAt(i, k, total))
  }

  /** The role `loadModalData` gives image `i` of `total` when the modal opens. */
  function InitialRole(i: nat, total: nat): (r: Role)
    ensures i < total ==> r == RoleAt(i, 0, total)
  {
    if i == 0 then Active
    else if i == 1 then Next
    else if i == total - 1 then Prev
    else Plain
  }

  /** The roles of all `total` images when the modal opens. */
  function InitialRoles(total: nat): (roles: seq<Role>)
    ensures |roles| == total
  {
    seq(total, i requires 0 <= i < total => InitialRole(i, total))
  }

  /** The `active` flags `updateDots(index)` leaves on `count` dots. */
  function DotFlags(index: int, count: nat): (flags: seq<bool>)
    ensures |flags| == count
  {
    seq(count, i requires 0 <= i < count => i == index)
  }

  /** How many entries of `roles` are `r`. */
  function Count(roles: seq<Role>, r: Role): (n: nat)
    ensures n <= |roles|
  {
    if roles == [] then 0 else (if roles[0] == r then 1 else 0) + Count(roles[1..], r)
  }

  /** No entry is `r`: the count is zero. */
  lemma {:induction false} CountNone(roles: seq<Role>, r: Role)
    requires forall i :: 0 <= i < |roles| ==> roles[i] != r
    ensures Count(roles, r) == 0
  {
    if roles != [] {
      CountNone(roles[1..], r);
    }
  }

  /** Exactly entry `j` is `r`: the count is one. */
  lemma {:induction false} CountOne(roles: seq<Role>, r: Role, j: nat)
    requires j < |roles|
    requires forall i :: 0 <= i < |roles| ==> (roles[i] == r <==> i == j)
    ensures Count(roles, r) == 1
  {
    if j == 0 {
      CountNone(roles[1..], r);
    } else {
      CountOne(roles[1..], r, j - 1);
    }
  }

  /**
   * After `updateGallery(k)` exactly image `k` is active; the image after it is `next`
   * unless it is `k` itself; the image before it is `prev` unless an earlier case claimed
   * it; every other image has no role.
   */
  lemma RolesCharacterized(k: nat, total: nat)
    requires k < total
    ensures forall i :: 0 <= i < total ==> (Roles(k, total)[i] == Active <==> i == k)
    ensures forall i :: 0 <= i < total ==> (Roles(k, total)[i] == Next <==> i != k && i == Succ(k, total))
    ensures forall i :: 0 <= i < total ==>
              (Roles(k, total)[i] == Prev <==> i != k && i != Succ(k, total) && i == Pred(k, total))
    ensures forall i :: 0 <= i < total ==>
              (Roles(k, total)[i] == Plain <==> i != k && i != Succ(k, total) && i != Pred(k, total))
  {
  }

  /**
   * Role counts: always one active image; one `next` image once there are two images;
   * one `prev` image once there are three.
   */
  lemma RoleCounts(k: nat, total: nat)
    requires k < total
    ensures Count(Roles(k, total), Active) == 1
    ensures Count(Roles(k, total), Next) == if total >= 2 then 1 else 0
    ensures Count(Roles(k, total), Prev) == if total >= 3 then 1 else 0
  {
    var roles := Roles(k, total);
    RolesCharacterized(k, total);
    CountOne(roles, Active, k);
    if total >= 2 {
      CountOne(roles, Next, Succ(k, total));
    } else {
      CountNone(roles, Next);
    }
    if total >= 3 {
      CountOne(roles, Prev, Pred(k, total));
    } else {
      CountNone(roles, Prev);
    }
  }

  /** With three or more images the neighbours of the active one are `next` and `prev`. */
  lemma NeighboursHaveRoles(k: nat, total: nat)
    requires 3 <= total && k < total
    ensures Roles(k, total)[Succ(k, total)] == Next
    ensures Roles(k, total)[Pred(k, total)] == Prev
  {
  }

  /** The roles the modal opens with are those `updateGallery(0)` gives, for every image count. */
  lemma InitialRolesAreFirstImage(total: nat)
    ensures InitialRoles(total) == Roles(0, total)
  {
  }

  /** Exactly dot `index` is lit, if `index` names a dot; otherwise none is. */
  lemma DotFlagsCount(index: int, count: nat)
    ensures forall i :: 0 <= i < count ==> (DotFlags(index, count)[i] <==> i == index)
    ensures (0 <= index < count) ==> |set i | 0 <= i < count && DotFlags(index, count)[i]| == 1
    ensures !(0 <= index < count) ==> |set i | 0 <= i < count && DotFlags(index, count)[i]| == 0
  {
    var lit := set i | 0 <= i < count && DotFlags(index, count)[i];
    if 0 <= index < count {
      assert lit == {index};
    } else {
      assert lit == {};
    }
  }
}

/** Permission masks and their resolution for a member in a channel. */
module Permissions {
  import opened Wrappers
  import opened BigInt

  /** The shift of every declared flag: 0 to 50 without a gap, then ADMINISTRATOR. */
  const ADMINISTRATOR_SHIFT: nat := 62
  const LAST_DENSE_SHIFT: nat := 50

  predicate IsFlag(i: nat) {
    i <= LAST_DENSE_SHIFT || i == ADMINISTRATOR_SHIFT
  }

  const VIEW_CHANNEL: int := Shl1(0)
  const ADMINISTRATOR: int := Shl1(ADMINISTRATOR_SHIFT)

  /** The OR of the flags with shifts 0 to n - 1. */
  function DenseFlags(n: nat): int {
    if n == 0 then 0 else Or(DenseFlags(n - 1), Shl1(n - 1))
  }

  /** All declared flags OR'd together. */
  function PermissionAll(): int {
    Or(DenseFlags(LAST_DENSE_SHIFT + 1), ADMINISTRATOR)
  }

  predicate HasFlag(perms: int, flag: int) {
    And(perms, flag) == flag
  }

  predicate Can(perms: int, flag: int) {
    HasFlag(perms, ADMINISTRATOR) || HasFlag(perms, flag)
  }

  datatype Overwrite = Overwrite(allow: int, deny: int)

  datatype Context = Context(
    isOwner: bool,
    everyone: int,
    roles: seq<int>,
    everyoneOverwrite: Option<Overwrite>,
    roleOverwrites: seq<Overwrite>,
    userOverwrite: Option<Overwrite>)

  // ----- the rule, one bit at a time -----

  ghost predicate AnyRole(masks: seq<int>, i: nat) {
    exists k :: 0 <= k < |masks| && Bit(masks[k], i)
  }

  ghost predicate AnyAllow(os: seq<Overwrite>, i: nat) {
    exists k :: 0 <= k < |os| && Bit(os[k].allow, i)
  }

  ghost predicate AnyDeny(os: seq<Overwrite>, i: nat) {
    exists k :: 0 <= k < |os| && Bit(os[k].deny, i)
  }

  ghost predicate Allows(o: Option<Overwrite>, i: nat) {
    o.Some? && Bit(o.value.allow, i)
  }

  ghost predicate Denies(o: Option<Overwrite>, i: nat) {
    o.Some? && Bit(o.value.deny, i)
  }

  /** The bit comes from @everyone or from one of the member's roles. */
  ghost predicate RoleBit(ctx: Context, i: nat) {
    Bit(ctx.everyone, i) || AnyRole(ctx.roles, i)
  }

  /** The member bypasses the overwrites: owner, or ADMINISTRATOR from some role. */
  ghost predicate Bypass(ctx: Context) {
    ctx.isOwner || RoleBit(ctx, ADMINISTRATOR_SHIFT)
  }

  ghost predicate BaseRule(ctx: Context, i: nat) {
    if Bypass(ctx) then IsFlag(i) else RoleBit(ctx, i)
  }

  ghost predicate OverwriteRule(ctx: Context, i: nat) {
    || Allows(ctx.userOverwrite, i)
    || (&& !Denies(ctx.userOverwrite, i)
        && (|| AnyAllow(ctx.roleOverwrites, i)
            || (&& !AnyDeny(ctx.roleOverwrites, i)
                && (|| Allows(ctx.everyoneOverwrite, i)
                    || (!Denies(ctx.everyoneOverwrite, i) && RoleBit(ctx, i))))))
  }

  ghost predicate ChannelRule(ctx: Context, i: nat) {
    if Bypass(ctx) then IsFlag(i) else OverwriteRule(ctx, i)
  }

  /** The layers in the order in which they decide on a bit: owner and administrator have all declared
      flags; then the member's own overwrite, those of the roles, and that of everyone, allow before deny in
      each; and what no overwrite mentions is as everyone or some role has it. */
  lemma LayersDecide(ctx: Context, i: nat)
    ensures var base := Bit(ctx.everyone, i) || exists k :: 0 <= k < |ctx.roles| && Bit(ctx.roles[k], i);
            var administrator := Bit(ctx.everyone, 62) || exists k :: 0 <= k < |ctx.roles| && Bit(ctx.roles[k], 62);
            var allowed := exists k :: 0 <= k < |ctx.roleOverwrites| && Bit(ctx.roleOverwrites[k].allow, i);
            var denied := exists k :: 0 <= k < |ctx.roleOverwrites| && Bit(ctx.roleOverwrites[k].deny, i);
            && (BaseRule(ctx, i) <==> if ctx.isOwner || administrator then i <= 50 || i == 62 else base)
            && (ChannelRule(ctx, i) <==>
                  if ctx.isOwner || administrator then i <= 50 || i == 62
                  else if ctx.userOverwrite.Some? && Bit(ctx.userOverwrite.value.allow, i) then true
                  else if ctx.userOverwrite.Some? && Bit(ctx.userOverwrite.value.deny, i) then false
                  else if allowed then true
                  else if denied then false
                  else if ctx.everyoneOverwrite.Some? && Bit(ctx.everyoneOverwrite.value.allow, i) then true
                  else if ctx.everyoneOverwrite.Some? && Bit(ctx.everyoneOverwrite.value.deny, i) then false
                  else base)
  {
  }

  // ----- the loops -----

  method ComputeBasePermissions(ctx: Context) returns (perms: int)
    ensures forall i: nat :: Bit(perms, i) <==> BaseRule(ctx, i)
  {
    PermissionAllBits();
    if ctx.isOwner {
      return PermissionAll();
    }
    perms := ctx.everyone;
    for k := 0 to |ctx.roles|
      invariant forall i: nat :: Bit(perms, i) <==> Bit(ctx.everyone, i) || AnyRole(ctx.roles[..k], i)
    {
      ghost var before := perms;
      perms := Or(perms, ctx.roles[k]);
      forall i: nat
        ensures Bit(perms, i) <==> Bit(ctx.everyone, i) || AnyRole(ctx.roles[..k + 1], i)
      {
        OrBit(before, ctx.roles[k], i);
        AnyRoleStep(ctx.roles, k, i);
      }
    }
    assert ctx.roles[..|ctx.roles|] == ctx.roles;
    HasFlagBit(perms, ADMINISTRATOR_SHIFT);
    if HasFlag(perms, ADMINISTRATOR) {
      return PermissionAll();
    }
  }

  method ComputeChannelPermissions(ctx: Context) returns (perms: int)
    ensures forall i: nat :: Bit(perms, i) <==> ChannelRule(ctx, i)
  {
    PermissionAllBits();
    if ctx.isOwner {
      return PermissionAll();
    }
    perms := ComputeBasePermissions(ctx.(isOwner := false));
    HasFlagBit(perms, ADMINISTRATOR_SHIFT);
    if HasFlag(perms, ADMINISTRATOR) {
      return PermissionAll();
    }
    ghost var base := perms;
    if ctx.everyoneOverwrite.Some? {
      perms := ApplyLayer(perms, ctx.everyoneOverwrite.value.deny, ctx.everyoneOverwrite.value.allow);
    }
    if |ctx.roleOverwrites| > 0 {
      var deny, allow := CombineOverwrites(ctx.roleOverwrites);
      perms := ApplyLayer(perms, deny, allow);
    }
    if ctx.userOverwrite.Some? {
      perms := ApplyLayer(perms, ctx.userOverwrite.value.deny, ctx.userOverwrite.value.allow);
    }
  }

  /** `perms &= ~deny; perms |= allow` */
  method ApplyLayer(before: int, deny: int, allow: int) returns (perms: int)
    ensures forall i: nat :: Bit(perms, i) <==> Bit(allow, i) || (!Bit(deny, i) && Bit(before, i))
  {
    perms := And(before, Not(deny));
    perms := Or(perms, allow);
    forall i: nat
      ensures Bit(perms, i) <==> Bit(allow, i) || (!Bit(deny, i) && Bit(before, i))
    {
      MaskBit(before, deny, allow, i);
    }
  }

  /** All the denies and all the allows of the role overwrites, each OR'd together. */
  method CombineOverwrites(os: seq<Overwrite>) returns (deny: int, allow: int)
    ensures forall i: nat :: Bit(deny, i) <==> AnyDeny(os, i)
    ensures forall i: nat :: Bit(allow, i) <==> AnyAllow(os, i)
  {
    deny, allow := 0, 0;
    forall i: nat
      ensures !Bit(0, i)
    {
      ZeroBit(i);
    }
    for k := 0 to |os|
      invariant forall i: nat :: Bit(deny, i) <==> AnyDeny(os[..k], i)
      invariant forall i: nat :: Bit(allow, i) <==> AnyAllow(os[..k], i)
    {
      ghost var d, a := deny, allow;
      deny := Or(deny, os[k].deny);
      allow := Or(allow, os[k].allow);
      forall i: nat
        ensures Bit(deny, i) <==> AnyDeny(os[..k + 1], i)
        ensures Bit(allow, i) <==> AnyAllow(os[..k + 1], i)
      {
        OrBit(d, os[k].deny, i);
        OrBit(a, os[k].allow, i);
        AnyOverwriteStep(os, k, i);
      }
    }
    assert os[..|os|] == os;
  }

  // ----- what the rule implies -----

  /** Only the sets of roles and of role overwrites matter: neither order nor repetition does. */
  lemma OrderAndDuplicatesDoNotMatter(c1: Context, c2: Context, p1: int, p2: int)
    requires c1 == c2.(roles := c1.roles, roleOverwrites := c1.roleOverwrites)
    requires forall r :: r in c1.roles <==> r in c2.roles
    requires forall o :: o in c1.roleOverwrites <==> o in c2.roleOverwrites
    requires forall i: nat :: Bit(p1, i) <==> ChannelRule(c1, i)
    requires forall i: nat :: Bit(p2, i) <==> ChannelRule(c2, i)
    ensures p1 == p2
  {
    forall i: nat
      ensures AnyRole(c1.roles, i) == AnyRole(c2.roles, i)
      ensures AnyAllow(c1.roleOverwrites, i) == AnyAllow(c2.roleOverwrites, i)
      ensures AnyDeny(c1.roleOverwrites, i) == AnyDeny(c2.roleOverwrites, i)
    {
      AnyIsMembership(c1, i);
      AnyIsMembership(c2, i);
    }
    forall i: nat
      ensures Bit(p1, i) == Bit(p2, i)
    {
      assert ChannelRule(c1, i) == ChannelRule(c2, i);
    }
    SameBits(p1, p2);
  }

  /** A new role that brings no overwrite takes bit i away exactly when it is the role that makes
      the member an administrator and i is not a declared flag: PermissionAll() holds nothing else. */
  lemma AddingARole(ctx: Context, role: int, i: nat)
    requires ChannelRule(ctx, i)
    ensures var ctx' := ctx.(roles := ctx.roles + [role]);
            ChannelRule(ctx', i) <==> IsFlag(i) || Bypass(ctx) || !Bit(role, ADMINISTRATOR_SHIFT)
  {
    var ctx' := ctx.(roles := ctx.roles + [role]);
    forall j: nat
      ensures AnyRole(ctx'.roles, j) <==> AnyRole(ctx.roles, j) || Bit(role, j)
    {
      AnyRoleStep(ctx'.roles, |ctx.roles|, j);
      assert ctx'.roles[..|ctx.roles|] == ctx.roles && ctx'.roles[..|ctx.roles| + 1] == ctx'.roles;
    }
  }

  /** In particular no declared flag is ever removed. */
  lemma AddingARoleKeepsFlags(ctx: Context, role: int, i: nat)
    requires IsFlag(i) && ChannelRule(ctx, i)
    ensures ChannelRule(ctx.(roles := ctx.roles + [role]), i)
  {
    AddingARole(ctx, role, i);
  }

  /** Every check passes on the full mask, and a check for one flag reads one bit otherwise. */
  lemma CanIsBitwise(perms: int, k: nat)
    ensures Can(perms, Shl1(k)) <==> Bit(perms, 62) || Bit(perms, k)
    ensures Can(PermissionAll(), Shl1(k))
  {
    HasFlagBit(perms, ADMINISTRATOR_SHIFT);
    HasFlagBit(perms, k);
    HasFlagBit(PermissionAll(), ADMINISTRATOR_SHIFT);
    PermissionAllBits();
  }

  // ----- supporting facts -----

  lemma {:induction false} DenseFlagsBit(n: nat, i: nat)
    ensures Bit(DenseFlags(n), i) <==> i < n
  {
    if n == 0 {
      ZeroBit(i);
    } else {
      OrBit(DenseFlags(n - 1), Shl1(n - 1), i);
      Shl1Bit(n - 1, i);
      DenseFlagsBit(n - 1, i);
    }
  }

  /** The full mask has exactly the declared flags. */
  lemma PermissionAllBits()
    ensures forall i: nat :: Bit(PermissionAll(), i) <==> i <= 50 || i == 62
  {
    forall i: nat
      ensures Bit(PermissionAll(), i) <==> i <= 50 || i == 62
    {
      OrBit(DenseFlags(LAST_DENSE_SHIFT + 1), ADMINISTRATOR, i);
      DenseFlagsBit(LAST_DENSE_SHIFT + 1, i);
      Shl1Bit(ADMINISTRATOR_SHIFT, i);
    }
  }

  lemma HasFlagBit(perms: int, k: nat)
    ensures HasFlag(perms, Shl1(k)) <==> Bit(perms, k)
  {
    Shl1Bit(k, k);
    AndBit(perms, Shl1(k), k);
    if Bit(perms, k) {
      forall i: nat
        ensures Bit(And(perms, Shl1(k)), i) == Bit(Shl1(k), i)
      {
        AndBit(perms, Shl1(k), i);
        Shl1Bit(k, i);
      }
      SameBits(And(perms, Shl1(k)), Shl1(k));
    }
  }

  lemma AnyRoleStep(masks: seq<int>, k: nat, i: nat)
    requires k < |masks|
    ensures AnyRole(masks[..k + 1], i) <==> AnyRole(masks[..k], i) || Bit(masks[k], i)
  {
    var next := masks[..k + 1];
    assert next[k] == masks[k] && next[..k] == masks[..k];
    if AnyRole(masks[..k], i) {
      var j :| 0 <= j < k && Bit(masks[..k][j], i);
      assert Bit(next[j], i);
    }
    if AnyRole(next, i) {
      var j :| 0 <= j < k + 1 && Bit(next[j], i);
      assert j < k ==> Bit(masks[..k][j], i);
    }
  }

  lemma AnyOverwriteStep(os: seq<Overwrite>, k: nat, i: nat)
    requires k < |os|
    ensures AnyDeny(os[..k + 1], i) <==> AnyDeny(os[..k], i) || Bit(os[k].deny, i)
    ensures AnyAllow(os[..k + 1], i) <==> AnyAllow(os[..k], i) || Bit(os[k].allow, i)
  {
    var denies := seq(|os|, j requires 0 <= j < |os| => os[j].deny);
    var allows := seq(|os|, j requires 0 <= j < |os| => os[j].allow);
    AnyRoleStep(denies, k, i);
    AnyRoleStep(allows, k, i);
    OverwriteMasks(os[..k], denies[..k], allows[..k], i);
    OverwriteMasks(os[..k + 1], denies[..k + 1], allows[..k + 1], i);
  }

  lemma OverwriteMasks(os: seq<Overwrite>, denies: seq<int>, allows: seq<int>, i: nat)
    requires |os| == |denies| == |allows|
    requires forall j :: 0 <= j < |os| ==> denies[j] == os[j].deny && allows[j] == os[j].allow
    ensures AnyDeny(os, i) == AnyRole(denies, i)
    ensures AnyAllow(os, i) == AnyRole(allows, i)
  {
    if AnyRole(denies, i) {
      var j :| 0 <= j < |os| && Bit(denies[j], i);
      assert Bit(os[j].deny, i);
    }
    if AnyRole(allows, i) {
      var j :| 0 <= j < |os| && Bit(allows[j], i);
      assert Bit(os[j].allow, i);
    }
  }

  lemma AnyIsMembership(ctx: Context, i: nat)
    ensures AnyRole(ctx.roles, i) <==> exists r :: r in ctx.roles && Bit(r, i)
    ensures AnyAllow(ctx.roleOverwrites, i) <==> exists o :: o in ctx.roleOverwrites && Bit(o.allow, i)
    ensures AnyDeny(ctx.roleOverwrites, i) <==> exists o :: o in ctx.roleOverwrites && Bit(o.deny, i)
  {
    if o :| o in ctx.roleOverwrites && Bit(o.allow, i) {
      var k :| 0 <= k < |ctx.roleOverwrites| && ctx.roleOverwrites[k] == o;
    }
    if o :| o in ctx.roleOverwrites && Bit(o.deny, i) {
      var k :| 0 <= k < |ctx.roleOverwrites| && ctx.roleOverwrites[k] == o;
    }
    if r :| r in ctx.roles && Bit(r, i) {
      var k :| 0 <= k < |ctx.roles| && ctx.roles[k] == r;
    }
  }
}

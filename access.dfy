/** The two small helpers every command handler leans on: the admin gate and
    the masked display of a linked address. */
module Access {
  import opened Common

  /** The role ids that unlock the admin commands. */
  const ADMIN_ROLE_IDS: seq<RoleId> := [
    "1230906668066406481",
    "1230195803877019718",
    "1230906465334853785",
    "1234239721165815818",
    "880593522896539649"
  ]

  /** What a command sees of its caller: no member at all, a raw API member
      (roles as a plain id list), or a cached guild member with a role
      manager. */
  datatype MemberView =
    | NoMember
    | ApiMember(roleIds: seq<RoleId>)
    | GuildMember(roles: set<RoleId>)

  /** `hasAdminRole`: only a cached guild member can pass, and only when one
      of its roles is an admin role. */
  function HasAdminRole(member: MemberView): (admin: bool)
    ensures admin <==> member.GuildMember? && exists r :: r in member.roles && r in ADMIN_ROLE_IDS
  {
    match member
    case GuildMember(roles) => exists r :: r in roles && r in ADMIN_ROLE_IDS
    case _ => false
  }

  /** Gaining roles never takes the admin gate away, and a raw API member
      never passes it, whatever ids it lists. */
  lemma AdminGateMonotone(roles: set<RoleId>, more: set<RoleId>, apiIds: seq<RoleId>)
    requires roles <= more
    ensures HasAdminRole(GuildMember(roles)) ==> HasAdminRole(GuildMember(more))
    ensures !HasAdminRole(ApiMember(apiIds))
  {
  }

  /** `maskAddress`: short (or empty) text as it is; otherwise the first two
      characters, an ellipsis and the last four. */
  function MaskAddress(address: string): (masked: string)
    ensures |address| < 6 ==> masked == address
    ensures |address| >= 6 ==>
              (|masked| == 9 && masked[..2] == address[..2]
               && masked[2..5] == "..." && masked[5..] == address[|address| - 4..])
  {
    if |address| < 6 then address else address[..2] + "..." + address[|address| - 4..]
  }

  /** Masking a masked address changes nothing: a mask keeps its own first
      two and last four characters. */
  lemma MaskIdempotent(address: string)
    ensures MaskAddress(MaskAddress(address)) == MaskAddress(address)
  {
    var m := MaskAddress(address);
    if |address| >= 6 {
      assert m[..2] + "..." + m[5..] == m;
    }
  }
}

/** The entities the member-summary core works on: tenants, members, the
    status and location records reported for members, and the transfer
    objects the boundary hands out. */
module Domain {

  /** A tenant: the opaque identifier that scopes every member. */
  datatype Tenant = Tenant(id: nat)

  /** A member of one tenant. Two members are equal exactly when tenant and id
      agree; this is the identity the bulk join keys its maps by. */
  datatype Member = Member(tenant: Tenant, id: nat)

  /** The latest status reported for a member. The status value and its
      timestamp are opaque to this core. */
  datatype MemberStatus = MemberStatus(member: Member, status: nat, timestamp: int)

  /** The latest location reported for a member. The position and its
      timestamp are opaque to this core. */
  datatype MemberLocation = MemberLocation(member: Member, latitude: int, longitude: int, timestamp: int)

  /** `MemberStatus::getMember`. */
  function StatusMember(s: MemberStatus): Member {
    s.member
  }

  /** `MemberLocation::getMember`. */
  function LocationMember(l: MemberLocation): Member {
    l.member
  }

  /** Transfer objects. Their field copying is not part of this model: each
      one wraps the entity it was built from. */
  datatype MemberDto = MemberDto(source: Member)
  datatype MemberStatusDto = MemberStatusDto(source: MemberStatus)
  datatype MemberLocationDto = MemberLocationDto(source: MemberLocation)

  /** `MemberStatusDto::new`. */
  function ToStatusDto(s: MemberStatus): MemberStatusDto {
    MemberStatusDto(s)
  }

  /** `MemberLocationDto::new`. */
  function ToLocationDto(l: MemberLocation): MemberLocationDto {
    MemberLocationDto(l)
  }
}

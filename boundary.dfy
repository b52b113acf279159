/** The read-only REST boundary for member summaries: one endpoint for a
    single member, one for every member of a tenant. Routing, transactions
    and the binding of path variables to entities are not part of this model;
    the repositories are given as their query functions. */
module Boundary {
  import opened Wrappers
  import opened Domain
  import opened SummaryAggregation

  /** `MemberRepository`, reduced to the query this boundary uses. */
  datatype MemberRepository = MemberRepository(findByTenant: Tenant -> seq<Member>)

  /** `MemberStatusRepository`: the single and the bulk lookup. */
  datatype MemberStatusRepository = MemberStatusRepository(
    findByMember: Member -> Option<MemberStatus>,
    findByMemberIn: seq<Member> -> seq<MemberStatus>)

  /** `MemberLocationRepository`: the single and the bulk lookup. */
  datatype MemberLocationRepository = MemberLocationRepository(
    findByMember: Member -> Option<MemberLocation>,
    findByMemberIn: seq<Member> -> seq<MemberLocation>)

  /** The mutable `MemberSummaryDto`; a field that was never assigned is absent. */
  class MemberSummaryDto {
    var member: Option<MemberDto>
    var status: Option<MemberStatusDto>
    var location: Option<MemberLocationDto>

    /** The no-argument constructor: every field starts out absent. */
    constructor ()
      ensures member == None && status == None && location == None
    {
      member, status, location := None, None, None;
    }

    /** The summary this object currently holds. */
    function View(): MemberSummary
      reads this
    {
      MemberSummary(member, status, location)
    }
  }

  class MemberSummaryBoundary {
    const memberRepository: MemberRepository
    const memberLocationRepository: MemberLocationRepository
    const memberStatusRepository: MemberStatusRepository

    constructor (memberRepository: MemberRepository,
                 memberLocationRepository: MemberLocationRepository,
                 memberStatusRepository: MemberStatusRepository)
      ensures this.memberRepository == memberRepository
      ensures this.memberLocationRepository == memberLocationRepository
      ensures this.memberStatusRepository == memberStatusRepository
    {
      this.memberRepository := memberRepository;
      this.memberLocationRepository := memberLocationRepository;
      this.memberStatusRepository := memberStatusRepository;
    }

    /** `getMemberSummary`: a fresh summary for `member`, whose status and
        location are filled in only when the single lookups find a record. */
    method GetMemberSummary(tenant: Tenant, member: Member) returns (summaryDto: MemberSummaryDto)
      ensures fresh(summaryDto)
      ensures summaryDto.member == Some(MemberDto(member))
      ensures summaryDto.status.Some? <==> memberStatusRepository.findByMember(member).Some?
      ensures summaryDto.status.Some? ==>
                summaryDto.status.value == ToStatusDto(memberStatusRepository.findByMember(member).value)
      ensures summaryDto.location.Some? <==> memberLocationRepository.findByMember(member).Some?
      ensures summaryDto.location.Some? ==>
                summaryDto.location.value == ToLocationDto(memberLocationRepository.findByMember(member).value)
      ensures summaryDto.View()
           == SingleSummary(member, memberStatusRepository.findByMember(member), memberLocationRepository.findByMember(member))
    {
      summaryDto := new MemberSummaryDto();
      summaryDto.member := Some(MemberDto(member));
      var status := memberStatusRepository.findByMember(member);
      if status.Some? {
        summaryDto.status := Some(ToStatusDto(status.value));
      }
      var location := memberLocationRepository.findByMember(member);
      if location.Some? {
        summaryDto.location := Some(ToLocationDto(location.value));
      }
    }

    /** `getMemberSummaries`: one summary per member of `tenant`, in the order
        the member repository lists them, or the duplicate key on which
        building the status map (first) or the location map failed. */
    function GetMemberSummaries(tenant: Tenant): (r: Result<seq<MemberSummary>, Member>)
      ensures var members := memberRepository.findByTenant(tenant);
              r.Success? ==>
                && |r.value| == |members|
                && forall i :: 0 <= i < |members| ==> r.value[i].member == Some(MemberDto(members[i]))
      ensures var members := memberRepository.findByTenant(tenant);
              r.Success? <==>
                && DistinctKeys(memberStatusRepository.findByMemberIn(members), StatusMember)
                && DistinctKeys(memberLocationRepository.findByMemberIn(members), LocationMember)
    {
      var members := memberRepository.findByTenant(tenant);
      Summaries(members,
                memberStatusRepository.findByMemberIn(members),
                memberLocationRepository.findByMemberIn(members))
    }

    /** The repositories are consistent for `tenant`: the bulk lookups over
        the tenant's members agree with the single lookups. */
    ghost predicate ConsistentFor(tenant: Tenant) {
      var members := memberRepository.findByTenant(tenant);
      && AgreesWith(memberStatusRepository.findByMember, memberStatusRepository.findByMemberIn(members), StatusMember, members)
      && AgreesWith(memberLocationRepository.findByMember, memberLocationRepository.findByMemberIn(members), LocationMember, members)
    }

    /** With consistent repositories, the i-th bulk summary is exactly what
        `GetMemberSummary` builds for the i-th member of the tenant. */
    lemma BulkMatchesSingle(tenant: Tenant)
      requires ConsistentFor(tenant)
      ensures var members := memberRepository.findByTenant(tenant);
              var r := GetMemberSummaries(tenant);
              r.Success? && forall i :: 0 <= i < |members| ==>
                r.value[i] == SingleSummary(members[i],
                                            memberStatusRepository.findByMember(members[i]),
                                            memberLocationRepository.findByMember(members[i]))
    {
    }
  }
}

# Member summaries of semitarius, modelled in Dafny

This project models the read-only member-summary boundary of the semitarius
server, and the access rule that secures it.

- **Single-member summary** (`getMemberSummary`). A fresh `MemberSummaryDto`
  gets the member. It gets the status and the location only when the
  corresponding repository lookup finds a record.
- **Bulk summaries** (`getMemberSummaries`). The tenant's member list is
  fetched. One bulk status lookup and one bulk location lookup are made over
  that list, and each result is collected into a map keyed by member with
  `Collectors.toMap`. The member list is then mapped, in order, to summaries
  that take their status and location from those maps (absent when a member
  has no entry).
- **`@RequireAnyRole`**. The caller must hold any of the listed roles. A
  listed role that is tenant specific counts only for the tenant given by the
  secured method's `Tenant` parameter. Both endpoints list SYSADMIN,
  TENANT_ADMIN and TENANT_USER.

Files:
- `wrappers.dfy` holds `Option` (Java `null` / `Optional`), `Result` (an exception raised by a collector) and `MapGet` (`Map.get`).
- `domain.dfy` holds tenants, members, status and location records, and the DTOs as opaque wrappers of the entity they copy.
- `security.dfy` holds the access decision. `RequireAnyRole` walks the annotation's array. `Allowed` is the set-based reference rule.
- `summary.dfy` holds the pure bulk join: `CollectToMap`, `Join`, `Summaries`, and the lemmas about them.
- `boundary.dfy` holds the classes `MemberSummaryDto` (mutable, as in the source) and `MemberSummaryBoundary`. The boundary's three repositories are values that carry their query functions.

Modelling decisions:
- Repositories are inputs. `findByTenant`, `findByMember` and `findByMemberIn` are arbitrary functions. The consistency lemma's precondition states the agreement between the single and the bulk lookups.
- `Collectors.toMap` on a sequential stream is modelled as insertion from left to right. It fails with the key of the first record whose member is already in the map. The status map is built before the location map, so a duplicate status is the failure reported when both lookups have duplicates.
- Member identity is structural (tenant and id). Map keys use it.
- `UserRole` is not part of this model. A role carries its own `tenantSpecific` flag. SYSADMIN is taken to be global, and TENANT_ADMIN and TENANT_USER tenant specific, after their names.
- A caller's grant is a role with an optional tenant scope. A global listed role is held through any grant of that role. A tenant-specific listed role is held only through a grant scoped to the method's tenant.
- A member listed twice by `findByTenant` gets two summaries, because the member list is mapped element by element.
- A held global role allows access even when the secured method supplies no tenant, because the rule asks for any one listed role.

## Model

| member | source | states |
|---|---|---|
| Security.RequireAnyRoleIsAllowed | JavaModules/semitarius-server/src/main/java/net/pkhapps/semitarius/server/boundary/security/RequireAnyRole.java:13-14 | the decision for a role list is granted exactly when some role in the SET of listed roles is held |
| Security.OrderAndRepetitionIrrelevant | JavaModules/semitarius-server/src/main/java/net/pkhapps/semitarius/server/boundary/security/RequireAnyRole.java:23 | two `value()` arrays naming the same roles, in any order and with any repetition, give the same decision |
| Security.AnyListedRoleSuffices | JavaModules/semitarius-server/src/main/java/net/pkhapps/semitarius/server/boundary/security/RequireAnyRole.java:13-14 | holding any single listed role grants access; the others need not be held |
| Security.DeniedWithoutListedRole | JavaModules/semitarius-server/src/main/java/net/pkhapps/semitarius/server/boundary/security/RequireAnyRole.java:13-14 | a caller with no grant of any listed role is denied, whatever the tenant |
| Security.TenantSpecificJudgedAgainstTenant | JavaModules/semitarius-server/src/main/java/net/pkhapps/semitarius/server/boundary/security/RequireAnyRole.java:14-16 | for tenant-specific listed roles, access to tenant t is granted iff one of them is granted for t itself |
| Security.TenantSpecificNeedsTenant | JavaModules/semitarius-server/src/main/java/net/pkhapps/semitarius/server/boundary/security/RequireAnyRole.java:15-16 | tenant-specific listed roles can never be satisfied when the method supplies no tenant |
| Security.GlobalRolesIgnoreTenant | JavaModules/semitarius-server/src/main/java/net/pkhapps/semitarius/server/boundary/security/RequireAnyRole.java:14-16 | for listed roles that are not tenant specific, the decision is the same for every tenant (or none) |
| Security.RequireAnyRoleSplit | JavaModules/semitarius-server/src/main/java/net/pkhapps/semitarius/server/boundary/security/RequireAnyRole.java:13-14 | the decision for two concatenated role lists is granted iff it is granted for either list |
| Security.SummaryAccessRule | JavaModules/semitarius-server/src/main/java/net/pkhapps/semitarius/server/boundary/MemberSummaryBoundary.java:50 | with the endpoints' role list, access to tenant t is granted iff the caller has a SYSADMIN grant of any scope, or a TENANT_ADMIN or TENANT_USER grant scoped to t |
| Security.SysAdminReadsAnyTenant | JavaModules/semitarius-server/src/main/java/net/pkhapps/semitarius/server/boundary/MemberSummaryBoundary.java:50 | with the endpoints' role list, a SYSADMIN grant gives access to every tenant |
| Security.DeniedWithoutGrantForTenant | JavaModules/semitarius-server/src/main/java/net/pkhapps/semitarius/server/boundary/MemberSummaryBoundary.java:64 | with the endpoints' role list, a caller with no SYSADMIN grant and no TENANT_ADMIN or TENANT_USER grant scoped to b is denied for b, whatever it holds for other tenants |
| SummaryAggregation.CollectToMap | JavaModules/semitarius-server/src/main/java/net/pkhapps/semitarius/server/boundary/MemberSummaryBoundary.java:67-70 | succeeds iff no two records share a member; the map's keys are then exactly the records' members, each mapped to its record's DTO; otherwise it fails with the first repeated member |
| SummaryAggregation.Join | JavaModules/semitarius-server/src/main/java/net/pkhapps/semitarius/server/boundary/MemberSummaryBoundary.java:71-73 | one summary per member, in order; the i-th holds members[i] and the two map lookups for it, absent where the map has no entry |
| SummaryAggregation.Summaries | JavaModules/semitarius-server/src/main/java/net/pkhapps/semitarius/server/boundary/MemberSummaryBoundary.java:66-73 | fails iff a bulk lookup repeats a member, with status duplicates reported first; otherwise exactly one summary per listed member in order, whose status (location) is present iff some record belongs to that member, and then is that record's DTO |
| SummaryAggregation.EmptyTenantHasNoSummaries | JavaModules/semitarius-server/src/main/java/net/pkhapps/semitarius/server/boundary/MemberSummaryBoundary.java:66-73 | when neither bulk lookup repeats a member, an empty member list yields an empty list of summaries, not an error |
| SummaryAggregation.ForeignRecordsIgnored | JavaModules/semitarius-server/src/main/java/net/pkhapps/semitarius/server/boundary/MemberSummaryBoundary.java:71-73 | when neither bulk lookup repeats a member, dropping records of unlisted members leaves the result unchanged, so such records never reach a summary |
| SummaryAggregation.RepeatedForeignMemberFails | JavaModules/semitarius-server/src/main/java/net/pkhapps/semitarius/server/boundary/MemberSummaryBoundary.java:67-68 | records of unlisted members are not filtered before the map is built: two status records of one unlisted member make the bulk join fail, although the join without them succeeds |
| SummaryAggregation.BulkAgreesWithSingle | JavaModules/semitarius-server/src/main/java/net/pkhapps/semitarius/server/boundary/MemberSummaryBoundary.java:53-73 | when the bulk lookups agree with the single lookups, the bulk join succeeds and its i-th summary is the single-member summary of members[i] |
| Boundary.MemberSummaryDto.constructor | JavaModules/semitarius-server/src/main/java/net/pkhapps/semitarius/server/boundary/MemberSummaryBoundary.java:53 | a new summary DTO has member, status and location all absent |
| Boundary.MemberSummaryBoundary.constructor | JavaModules/semitarius-server/src/main/java/net/pkhapps/semitarius/server/boundary/MemberSummaryBoundary.java:39-46 | the boundary keeps the three repositories it is given |
| Boundary.MemberSummaryBoundary.GetMemberSummary | JavaModules/semitarius-server/src/main/java/net/pkhapps/semitarius/server/boundary/MemberSummaryBoundary.java:51-59 | returns a fresh DTO holding exactly the requested member; its status is present iff the status lookup finds a record, and then is that record's DTO, and otherwise stays absent; the same holds for the location, independently |
| Boundary.MemberSummaryBoundary.GetMemberSummaries | JavaModules/semitarius-server/src/main/java/net/pkhapps/semitarius/server/boundary/MemberSummaryBoundary.java:65-74 | succeeds iff neither bulk lookup over the tenant's members repeats a member; then it returns one summary per member of the tenant, in listing order, each holding that member |
| Boundary.MemberSummaryBoundary.BulkMatchesSingle | JavaModules/semitarius-server/src/main/java/net/pkhapps/semitarius/server/boundary/MemberSummaryBoundary.java:53-73 | with consistent repositories, the i-th bulk summary equals what the single-member endpoint builds for the i-th member |

## Left out

- Spring plumbing is not modelled: routing, `@Transactional` (a new read-only transaction), and the binding of path variables to `Tenant` and `Member` entities. This includes the not-found outcome for a member that cannot be resolved. The `tenant` argument of `GetMemberSummary` is accepted and unused, as in the source. The model therefore does not check that the requested member belongs to the tenant that access was judged against; whether path binding rejects a member of another tenant is not part of this model.
- The repository implementations are not modelled. They are persistence queries and appear only as their query functions.
- The DTO constructors' field copying is not shown. Each DTO wraps the entity it was built from.
- The interceptor that enforces `@RequireAnyRole` is not part of this model, so the endpoints are not guarded by the decision in Dafny. Only the documented rule is modelled. `UserRole` and `RequireAnyRoleOrOwningUser` are not part of this model either.
- Concurrency between requests and snapshot isolation are not modelled. Each call is one sequential computation.
- CollectToMap: the NullPointerException that `Collectors.toMap` throws for a null value is not modelled, because DTOs are never null here. Parallel streams are not modelled.
- Boundary.MemberSummaryBoundary.GetMemberSummaries: its own contract states only length, order, member slots and when it fails. The full status and location characterisation is the contract of `SummaryAggregation.Summaries`, which it calls directly.

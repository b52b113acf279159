/** The bulk member-summary join: the tenant's member list is paired with the
    status and location records found for it, through two maps keyed by
    member that are built with `Collectors.toMap`. */
module SummaryAggregation {
  import opened Wrappers
  import opened Domain

  /** `MemberSummaryDto` as a value: the member and its optional status and
      optional location. An absent slot is Java's `null`. */
  datatype MemberSummary = MemberSummary(
    member: Option<MemberDto>,
    status: Option<MemberStatusDto>,
    location: Option<MemberLocationDto>)

  /** The members that the records in `rs` belong to. */
  ghost function KeysOf<R>(rs: seq<R>, key: R -> Member): set<Member> {
    set i | 0 <= i < |rs| :: key(rs[i])
  }

  /** No two records in `rs` belong to the same member. */
  ghost predicate DistinctKeys<R>(rs: seq<R>, key: R -> Member) {
    forall i, j :: 0 <= i < j < |rs| ==> key(rs[i]) != key(rs[j])
  }

  /** `k` is the key at which a left-to-right accumulation of `rs` first meets
      a member it has already seen. */
  ghost predicate FirstRepeatedKey<R>(rs: seq<R>, key: R -> Member, k: Member) {
    exists j :: 0 <= j < |rs| && key(rs[j]) == k && DistinctKeys(rs[..j], key) && k in KeysOf(rs[..j], key)
  }

  /** The slot of a summary for member `m` as the join promises it: present
      exactly when some record of `rs` belongs to `m`, and then the
      conversion of such a record. */
  ghost predicate JoinedSlot<R, V>(slot: Option<V>, rs: seq<R>, key: R -> Member, convert: R -> V, m: Member) {
    && (slot.Some? <==> m in KeysOf(rs, key))
    && forall j :: 0 <= j < |rs| && key(rs[j]) == m ==> slot == Some(convert(rs[j]))
  }

  /** Collects the records into a map from member to converted record, as a
      sequential map collector does: records are inserted from left to right,
      and collecting fails with the member of the first record whose member
      is already in the map. */
  function CollectToMap<R, V>(rs: seq<R>, key: R -> Member, convert: R -> V): (r: Result<map<Member, V>, Member>)
    ensures r.Success? <==> DistinctKeys(rs, key)
    ensures r.Success? ==> r.value.Keys == KeysOf(rs, key)
    ensures r.Success? ==> forall i :: 0 <= i < |rs| ==> r.value[key(rs[i])] == convert(rs[i])
    ensures r.Failure? ==> FirstRepeatedKey(rs, key, r.error)
    decreases |rs|
  {
    if |rs| == 0 then
      Success(map[])
    else
      var n := |rs| - 1;
      var k := key(rs[n]);
      match CollectToMap(rs[..n], key, convert)
      case Failure(e) =>
        RepeatInPrefix(rs, key, e);
        Failure(e)
      case Success(m) =>
        if k in m then
          RepeatAtLast(rs, key);
          Failure(k)
        else
          InsertNewKey(rs, rs[..n], key, convert, m);
          Success(m[k := convert(rs[n])])
  }

  /** A repeat found in all but the last record is the first repeat of all records. */
  lemma RepeatInPrefix<R>(rs: seq<R>, key: R -> Member, e: Member)
    requires |rs| > 0 && FirstRepeatedKey(rs[..|rs| - 1], key, e)
    ensures !DistinctKeys(rs, key) && FirstRepeatedKey(rs, key, e)
  {
    var prefix := rs[..|rs| - 1];
    var j :| 0 <= j < |prefix| && key(prefix[j]) == e && DistinctKeys(prefix[..j], key) && e in KeysOf(prefix[..j], key);
    assert prefix[..j] == rs[..j] && prefix[j] == rs[j];
    var i :| 0 <= i < j && key(rs[..j][i]) == e;
    assert key(rs[i]) == key(rs[j]);
  }

  /** When all but the last record have distinct members and the last
      record's member is among them, that member is the first repeat. */
  lemma RepeatAtLast<R>(rs: seq<R>, key: R -> Member)
    requires |rs| > 0
    requires DistinctKeys(rs[..|rs| - 1], key) && key(rs[|rs| - 1]) in KeysOf(rs[..|rs| - 1], key)
    ensures !DistinctKeys(rs, key) && FirstRepeatedKey(rs, key, key(rs[|rs| - 1]))
  {
    var n := |rs| - 1;
    var i :| 0 <= i < n && key(rs[..n][i]) == key(rs[n]);
    assert key(rs[i]) == key(rs[n]);
  }

  /** Inserting the last record into the map of all the others, when its
      member is new, gives the map of all records. */
  lemma InsertNewKey<R, V>(rs: seq<R>, prefix: seq<R>, key: R -> Member, convert: R -> V, m: map<Member, V>)
    requires |rs| > 0 && prefix == rs[..|rs| - 1]
    requires DistinctKeys(prefix, key) && m.Keys == KeysOf(prefix, key)
    requires forall i :: 0 <= i < |prefix| ==> m[key(prefix[i])] == convert(prefix[i])
    requires key(rs[|rs| - 1]) !in m
    ensures DistinctKeys(rs, key)
    ensures m[key(rs[|rs| - 1]) := convert(rs[|rs| - 1])].Keys == KeysOf(rs, key)
    ensures forall i :: 0 <= i < |rs| ==> m[key(rs[|rs| - 1]) := convert(rs[|rs| - 1])][key(rs[i])] == convert(rs[i])
  {
    var n := |rs| - 1;
    NewKeyAtLast(rs, key);
    var m' := m[key(rs[n]) := convert(rs[n])];
    forall i | 0 <= i < |rs| ensures m'[key(rs[i])] == convert(rs[i]) {
      if i < n {
        assert prefix[i] == rs[i];
        assert key(rs[i]) != key(rs[n]);
      }
    }
  }

  /** When all but the last record have distinct members and the last
      record's member is new, all members are distinct and one more key is known. */
  lemma NewKeyAtLast<R>(rs: seq<R>, key: R -> Member)
    requires |rs| > 0
    requires DistinctKeys(rs[..|rs| - 1], key) && key(rs[|rs| - 1]) !in KeysOf(rs[..|rs| - 1], key)
    ensures DistinctKeys(rs, key)
    ensures KeysOf(rs, key) == KeysOf(rs[..|rs| - 1], key) + {key(rs[|rs| - 1])}
  {
    var n := |rs| - 1;
    var prefix := rs[..n];
    forall i, j | 0 <= i < j < |rs| ensures key(rs[i]) != key(rs[j]) {
      assert rs[i] == prefix[i];
      if j < n {
        assert rs[j] == prefix[j];
      } else {
        assert key(prefix[i]) in KeysOf(prefix, key);
      }
    }
    forall x | x in KeysOf(rs, key) ensures x in KeysOf(prefix, key) + {key(rs[n])} {
      var i :| 0 <= i < |rs| && key(rs[i]) == x;
      if i < n {
        assert prefix[i] == rs[i];
      }
    }
  }

  /** Pairs each listed member, in order, with its entries in the status map
      and the location map; an entry is absent when the map has no key for
      that member. */
  function Join(members: seq<Member>, statusMap: map<Member, MemberStatusDto>, locationMap: map<Member, MemberLocationDto>): (r: seq<MemberSummary>)
    ensures |r| == |members|
    ensures forall i :: 0 <= i < |members| ==>
              r[i] == MemberSummary(Some(MemberDto(members[i])), MapGet(statusMap, members[i]), MapGet(locationMap, members[i]))
    decreases |members|
  {
    if |members| == 0 then
      []
    else
      var m := members[0];
      [MemberSummary(Some(MemberDto(m)), MapGet(statusMap, m), MapGet(locationMap, m))]
        + Join(members[1..], statusMap, locationMap)
  }

  /** The body of `getMemberSummaries` once the three repository results are
      known: build the status map, then the location map, then join. */
  function Summaries(members: seq<Member>, statuses: seq<MemberStatus>, locations: seq<MemberLocation>): (r: Result<seq<MemberSummary>, Member>)
    ensures r.Success? <==> DistinctKeys(statuses, StatusMember) && DistinctKeys(locations, LocationMember)
    ensures r.Failure? && !DistinctKeys(statuses, StatusMember) ==> FirstRepeatedKey(statuses, StatusMember, r.error)
    ensures r.Failure? && DistinctKeys(statuses, StatusMember) ==> FirstRepeatedKey(locations, LocationMember, r.error)
    ensures r.Success? ==> |r.value| == |members|
    ensures r.Success? ==> forall i :: 0 <= i < |members| ==> r.value[i].member == Some(MemberDto(members[i]))
    ensures r.Success? ==> forall i :: 0 <= i < |members| ==>
              JoinedSlot(r.value[i].status, statuses, StatusMember, ToStatusDto, members[i])
    ensures r.Success? ==> forall i :: 0 <= i < |members| ==>
              JoinedSlot(r.value[i].location, locations, LocationMember, ToLocationDto, members[i])
  {
    var statusMap :- CollectToMap(statuses, StatusMember, ToStatusDto);
    var locationMap :- CollectToMap(locations, LocationMember, ToLocationDto);
    Success(Join(members, statusMap, locationMap))
  }

  /** A tenant without members gets an empty list of summaries, not an error,
      as long as the bulk lookups return no duplicate records. */
  lemma EmptyTenantHasNoSummaries(statuses: seq<MemberStatus>, locations: seq<MemberLocation>)
    requires DistinctKeys(statuses, StatusMember) && DistinctKeys(locations, LocationMember)
    ensures Summaries([], statuses, locations) == Success([])
  {
  }

  /** The records of `rs` that belong to one of `members`. */
  function RecordsOf<R>(rs: seq<R>, key: R -> Member, members: seq<Member>): (r: seq<R>)
    ensures forall i :: 0 <= i < |r| ==> r[i] in rs && key(r[i]) in members
    ensures forall j :: 0 <= j < |rs| && key(rs[j]) in members ==> rs[j] in r
    ensures DistinctKeys(rs, key) ==> DistinctKeys(r, key)
    decreases |rs|
  {
    if |rs| == 0 then
      []
    else
      var rest := RecordsOf(rs[1..], key, members);
      assert forall i :: 0 <= i < |rest| ==> rest[i] in rs;
      if key(rs[0]) in members then
        assert DistinctKeys(rs, key) ==> forall i :: 0 <= i < |rest| ==> key(rest[i]) != key(rs[0]) by {
          if DistinctKeys(rs, key) {
            forall i | 0 <= i < |rest| ensures key(rest[i]) != key(rs[0]) {
              var j :| 0 <= j < |rs[1..]| && rs[1..][j] == rest[i];
              assert rs[j + 1] == rest[i];
            }
          }
        }
        [rs[0]] + rest
      else
        rest
  }

  /** Two slots that obey the join for `m`, one against `rs` and one against
      the records of `rs` that belong to `members`, are the same. */
  lemma SlotIgnoresForeignRecords<R, V>(slot1: Option<V>, slot2: Option<V>, rs: seq<R>, key: R -> Member, convert: R -> V, members: seq<Member>, m: Member)
    requires m in members
    requires JoinedSlot(slot1, rs, key, convert, m)
    requires JoinedSlot(slot2, RecordsOf(rs, key, members), key, convert, m)
    ensures slot1 == slot2
  {
  }

  /** Records whose member is not in the member list never reach a summary:
      dropping them from the bulk lookups changes nothing, because the join
      is driven by the member list alone. */
  lemma ForeignRecordsIgnored(members: seq<Member>, statuses: seq<MemberStatus>, locations: seq<MemberLocation>)
    requires DistinctKeys(statuses, StatusMember) && DistinctKeys(locations, LocationMember)
    ensures Summaries(members, statuses, locations)
         == Summaries(members, RecordsOf(statuses, StatusMember, members), RecordsOf(locations, LocationMember, members))
  {
    var all := Summaries(members, statuses, locations);
    var own := Summaries(members, RecordsOf(statuses, StatusMember, members), RecordsOf(locations, LocationMember, members));
    assert all.Success? && own.Success?;
    forall i | 0 <= i < |members| ensures all.value[i] == own.value[i] {
      SlotIgnoresForeignRecords(all.value[i].status, own.value[i].status, statuses, StatusMember, ToStatusDto, members, members[i]);
      SlotIgnoresForeignRecords(all.value[i].location, own.value[i].location, locations, LocationMember, ToLocationDto, members, members[i]);
    }
    assert all.value == own.value;
  }

  /** Records of unlisted members are not filtered before the maps are
      built: two status records of a member outside the list still make the
      bulk join fail. */
  lemma RepeatedForeignMemberFails(listed: Member, foreign: Member)
    requires listed != foreign
    ensures Summaries([listed], [MemberStatus(foreign, 1, 0), MemberStatus(foreign, 2, 0)], []).Failure?
    ensures Summaries([listed], RecordsOf([MemberStatus(foreign, 1, 0), MemberStatus(foreign, 2, 0)], StatusMember, [listed]), []).Success?
  {
  }

  /** The summary `getMemberSummary` builds for one member from the results
      of the two single lookups. */
  function SingleSummary(member: Member, status: Option<MemberStatus>, location: Option<MemberLocation>): MemberSummary {
    MemberSummary(
      Some(MemberDto(member)),
      if status.Some? then Some(ToStatusDto(status.value)) else None,
      if location.Some? then Some(ToLocationDto(location.value)) else None)
  }

  /** A single lookup `find` agrees with the bulk result `rs` on `members`:
      `rs` holds at most one record per member, and `find` returns for each
      listed member exactly the record of `rs` that belongs to it, if any. */
  ghost predicate AgreesWith<R>(find: Member -> Option<R>, rs: seq<R>, key: R -> Member, members: seq<Member>) {
    && DistinctKeys(rs, key)
    && forall i :: 0 <= i < |members| ==>
         && (find(members[i]).Some? <==> members[i] in KeysOf(rs, key))
         && forall j :: 0 <= j < |rs| && key(rs[j]) == members[i] ==> find(members[i]) == Some(rs[j])
  }

  /** When the bulk lookups agree with the single lookups, every bulk summary
      is the single-member summary of the same member. */
  lemma BulkAgreesWithSingle(members: seq<Member>, statuses: seq<MemberStatus>, locations: seq<MemberLocation>,
                             findStatus: Member -> Option<MemberStatus>, findLocation: Member -> Option<MemberLocation>)
    requires AgreesWith(findStatus, statuses, StatusMember, members)
    requires AgreesWith(findLocation, locations, LocationMember, members)
    ensures Summaries(members, statuses, locations).Success?
    ensures forall i :: 0 <= i < |members| ==>
              Summaries(members, statuses, locations).value[i] == SingleSummary(members[i], findStatus(members[i]), findLocation(members[i]))
  {
  }
}

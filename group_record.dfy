/**
 * The persisted Group record and the pure rules of the "Add Group" editor:
 * which member entries are kept, how one entry is removed, and how the form
 * becomes a record.
 */
module GroupRecord {
  import opened Wrappers
  import opened Strings
  import opened TimerText

  /** A stored group; `timerSeconds` is JavaScript's `number | null`. */
  datatype Group = Group(
    id: string,
    name: string,
    members: seq<string>,
    timerEnabled: bool,
    timerSeconds: Option<nat>,
    alarmSound: string,
    createdAt: string)

  /** The three bundled alarm clips offered by the radio options. */
  const AlarmSounds: set<string> := {"sound1", "sound2", "sound3"}

  /** The alarm preselected in a fresh form. */
  const DefaultAlarm: string := "sound1"

  /** `members.filter((m) => m.trim() !== "")`. */
  function CleanMembers(members: seq<string>): (r: seq<string>)
    ensures |r| <= |members|
    ensures forall k :: 0 <= k < |r| ==> !IsBlank(r[k])
  {
    if members == [] then []
    else (if IsBlank(members[0]) then [] else [members[0]]) + CleanMembers(members[1..])
  }

  /** Filtering a concatenation filters each part: the kept entries stay in their original order. */
  lemma {:induction false} CleanMembersAppend(a: seq<string>, b: seq<string>)
    ensures CleanMembers(a + b) == CleanMembers(a) + CleanMembers(b)
  {
    if a == [] {
      assert a + b == b;
    } else {
      assert (a + b)[1..] == a[1..] + b;
      CleanMembersAppend(a[1..], b);
    }
  }

  /** An entry is kept exactly when it is in the form and is not blank. */
  lemma {:induction false} CleanMembersMembership(members: seq<string>, m: string)
    ensures m in CleanMembers(members) <==> m in members && !IsBlank(m)
  {
    if members != [] {
      CleanMembersMembership(members[1..], m);
      assert members == [members[0]] + members[1..];
    }
  }

  /** With no blank entries nothing is dropped, and entries are kept as typed (not trimmed). */
  lemma {:induction false} CleanMembersKeepsNonBlank(members: seq<string>)
    requires forall k :: 0 <= k < |members| ==> !IsBlank(members[k])
    ensures CleanMembers(members) == members
  {
    if members != [] {
      CleanMembersKeepsNonBlank(members[1..]);
    }
  }

  /** Only blank entries are dropped: the result is as long as the form exactly when no entry is blank. */
  lemma {:induction false} CleanMembersDropsOnlyBlanks(members: seq<string>)
    ensures |CleanMembers(members)| == |members| <==> forall k :: 0 <= k < |members| ==> !IsBlank(members[k])
  {
    if members != [] {
      CleanMembersDropsOnlyBlanks(members[1..]);
      assert forall k :: 1 <= k < |members| ==> members[k] == members[1..][k - 1];
    }
  }

  /** A form whose every entry is blank yields a record with no members at all; saving is not refused. */
  lemma {:induction false} CleanMembersAllBlank(members: seq<string>)
    requires forall k :: 0 <= k < |members| ==> IsBlank(members[k])
    ensures CleanMembers(members) == []
  {
    if members != [] {
      CleanMembersAllBlank(members[1..]);
    }
  }

  /** Filtering twice is filtering once. */
  lemma CleanMembersIdempotent(members: seq<string>)
    ensures CleanMembers(CleanMembers(members)) == CleanMembers(members)
  {
    CleanMembersKeepsNonBlank(CleanMembers(members));
  }

  /** `s.filter((_, i) => i !== index)`: every element whose position is not `index`. */
  function Without<T>(s: seq<T>, index: int): (r: seq<T>)
    ensures |r| == if 0 <= index < |s| then |s| - 1 else |s|
  {
    if s == [] then []
    else Without(s[..|s| - 1], index) + (if |s| - 1 == index then [] else [s[|s| - 1]])
  }

  /** An in-range index removes exactly that element; the others keep their order. */
  lemma {:induction false} WithoutInRange<T>(s: seq<T>, index: int)
    requires 0 <= index < |s|
    ensures Without(s, index) == s[..index] + s[index + 1..]
  {
    var p := s[..|s| - 1];
    if index == |s| - 1 {
      WithoutOutOfRange(p, index);
    } else {
      WithoutInRange(p, index);
      assert p[..index] + p[index + 1..] + [s[|s| - 1]] == s[..index] + s[index + 1..];
    }
  }

  /** An out-of-range index keeps every element. */
  lemma {:induction false} WithoutOutOfRange<T>(s: seq<T>, index: int)
    requires !(0 <= index < |s|)
    ensures Without(s, index) == s
  {
    if s != [] {
      WithoutOutOfRange(s[..|s| - 1], index);
    }
  }

  /**
   * The record `saveGroup` builds once the name is known not to be blank:
   * the trimmed name, the non-blank entries, the timer setting, a duration
   * only when the timer is on and the text reads as a positive number, and
   * the selected alarm whether or not the timer is on.
   */
  function MakeGroup(id: string, name: string, members: seq<string>, timerEnabled: bool,
                     timerText: string, alarm: string, createdAt: string): (g: Group)
    requires !IsBlank(name)
    ensures g.id == id && g.createdAt == createdAt
    ensures g.name != [] && g.name == Trim(name)
    ensures !IsSpace(g.name[0]) && !IsSpace(g.name[|g.name| - 1])
    ensures g.members == CleanMembers(members)
    ensures |g.members| <= |members|
    ensures forall k :: 0 <= k < |g.members| ==> !IsBlank(g.members[k])
    ensures forall m :: m in g.members <==> m in members && !IsBlank(m)
    ensures g.timerEnabled == timerEnabled
    ensures g.timerSeconds == ParseTimer(timerEnabled, timerText)
    ensures !timerEnabled ==> g.timerSeconds == None
    ensures g.timerSeconds.Some? ==> g.timerSeconds.value > 0
    ensures g.alarmSound == alarm
  {
    forall m ensures m in CleanMembers(members) <==> m in members && !IsBlank(m) {
      CleanMembersMembership(members, m);
    }
    Group(id, Trim(name), CleanMembers(members), timerEnabled,
          ParseTimer(timerEnabled, timerText), alarm, createdAt)
  }
}

/**
 * The "Add Group" modal as a state machine: the form state the component
 * keeps, the handlers that edit it, and `saveGroup`, which appends a record
 * to the stored list and resets the form.
 */
module Modal {
  import opened Wrappers
  import opened Strings
  import opened TimerText
  import opened GroupRecord

  /** The local key-value store's "groups" entry; None while the key has never been written. */
  class GroupStorage {
    var groups: Option<seq<Group>>

    constructor (initial: Option<seq<Group>>)
      ensures groups == initial
    {
      groups := initial;
    }

    /** What a reader gets: the stored list, or the empty list when the key is absent. */
    function Loaded(): (gs: seq<Group>)
      reads this
      ensures groups == None ==> gs == []
      ensures groups != None ==> Some(gs) == groups
    {
      match groups
      case None => []
      case Some(gs) => gs
    }
  }

  /** What one press of "Save Group" did. */
  datatype SaveOutcome =
    | NameBlank            // the trimmed name was empty: silently nothing
    | StorageFailed        // reading, parsing or writing the store threw: warned, nothing else
    | Saved(group: Group)  // appended; the form was reset and the parent was told and closed the modal

  class AddGroupModal {
    var groupName: string
    var members: seq<string>
    var timerEnabled: bool
    var timerSeconds: string   // the raw text of the duration field
    var selectedAlarm: string

    /** The form always shows at least one member slot, and the alarm is one of the bundled clips. */
    ghost predicate Valid()
      reads this
    {
      |members| >= 1 && selectedAlarm in AlarmSounds
    }

    /** The form as it is when the modal first opens and after every successful save. */
    ghost predicate IsReset()
      reads this
    {
      groupName == "" && members == [""] && !timerEnabled &&
      timerSeconds == "" && selectedAlarm == DefaultAlarm
    }

    constructor ()
      ensures Valid() && IsReset()
    {
      groupName := "";
      members := [""];
      timerEnabled := false;
      timerSeconds := "";
      selectedAlarm := DefaultAlarm;
    }

    /** The group-name text field. */
    method SetGroupName(text: string)
      requires Valid()
      modifies this`groupName
      ensures Valid() && groupName == text
    {
      groupName := text;
    }

    /** The "Enable Timer" switch. */
    method SetTimerEnabled(on: bool)
      requires Valid()
      modifies this`timerEnabled
      ensures Valid() && timerEnabled == on
    {
      timerEnabled := on;
    }

    /** The duration text field. */
    method SetTimerSeconds(text: string)
      requires Valid()
      modifies this`timerSeconds
      ensures Valid() && timerSeconds == text
    {
      timerSeconds := text;
    }

    /** "+ Add another member": one more, empty, slot at the end. */
    method AddMemberField()
      requires Valid()
      modifies this`members
      ensures Valid()
      ensures members == old(members) + [""]
      ensures |members| == old(|members|) + 1 && members[|members| - 1] == ""
      ensures forall k :: 0 <= k < old(|members|) ==> members[k] == old(members[k])
    {
      members := members + [""];
    }

    /** The "×" next to slot `index`: a lone slot is kept; otherwise exactly that slot goes. */
    method RemoveMemberField(index: int)
      requires Valid()
      modifies this`members
      ensures Valid()
      ensures old(|members|) == 1 ==> members == old(members)
      ensures old(|members|) > 1 ==> members == Without(old(members), index)
      ensures old(|members|) > 1 && 0 <= index < old(|members|) ==>
                members == old(members[..index]) + old(members[index + 1..])
      ensures !(0 <= index < old(|members|)) ==> members == old(members)
    {
      if |members| == 1 {
        return;
      }
      if 0 <= index < |members| {
        WithoutInRange(members, index);
      } else {
        WithoutOutOfRange(members, index);
      }
      members := Without(members, index);
    }

    /** Typing into slot `index` (a slot on screen, so in range): only that slot changes. */
    method EditMember(index: nat, text: string)
      requires Valid()
      requires index < |members|
      modifies this`members
      ensures Valid()
      ensures |members| == old(|members|) && members[index] == text
      ensures forall k :: 0 <= k < |members| && k != index ==> members[k] == old(members[k])
    {
      members := members[index := text];
    }

    /** Pressing one of the three alarm radio options (the preview sound is not modelled). */
    method SelectAlarm(value: string)
      requires Valid()
      requires value in AlarmSounds
      modifies this`selectedAlarm
      ensures Valid() && selectedAlarm == value
    {
      selectedAlarm := value;
    }

    /** Puts every field back to its initial value. */
    method Reset()
      modifies this
      ensures Valid() && IsReset()
    {
      groupName := "";
      members := [""];
      timerEnabled := false;
      timerSeconds := "";
      selectedAlarm := DefaultAlarm;
    }

    /**
     * `saveGroup`. `id` and `createdAt` stand for the clock readings the source
     * takes; `storageFails` says whether reading, parsing or writing the
     * stored list throws. A blank name changes nothing; a storage failure
     * changes nothing; otherwise the new record goes at the end of the stored
     * list (an absent list counts as empty) and the form is reset.
     */
    method Save(storage: GroupStorage, id: string, createdAt: string, storageFails: bool)
      returns (outcome: SaveOutcome)
      requires Valid()
      modifies this, storage
      ensures Valid()
      ensures outcome.Saved? <==> !IsBlank(old(groupName)) && !storageFails
      ensures IsBlank(old(groupName)) ==> outcome == NameBlank
      ensures !IsBlank(old(groupName)) && storageFails ==> outcome == StorageFailed
      ensures !outcome.Saved? ==> unchanged(this) && unchanged(storage)
      ensures outcome.Saved? ==>
                outcome.group == MakeGroup(id, old(groupName), old(members), old(timerEnabled),
                                           old(timerSeconds), old(selectedAlarm), createdAt) &&
                outcome.group.alarmSound in AlarmSounds &&
                storage.groups == Some(old(storage.Loaded()) + [outcome.group]) &&
                IsReset()
      ensures outcome.Saved? && old(storage.groups) == None ==> storage.groups == Some([outcome.group])
    {
      if IsBlank(groupName) {
        return NameBlank;
      }
      var newGroup := MakeGroup(id, groupName, members, timerEnabled, timerSeconds,
                                selectedAlarm, createdAt);
      if storageFails {
        return StorageFailed;
      }
      var groups := storage.Loaded();
      assert storage.groups == None ==> groups + [newGroup] == [newGroup];
      groups := groups + [newGroup];
      storage.groups := Some(groups);
      Reset();
      outcome := Saved(newGroup);
    }
  }

  /** The three facts FridayRecord is made of. */
  lemma FridayName()
    ensures Trim("  Friday ") == "Friday"
  {
    assert "  Friday " == "  " + "Friday" + " ";
    TrimPadded("  ", "Friday", " ");
  }

  lemma FridayMembers()
    ensures CleanMembers(["A", "", "B"]) == ["A", "B"]
  {
  }

  lemma FridayTimer()
    ensures ParseTimer(true, " 10 ") == Some(10)
  {
    assert Decimal(10) == "10";
    assert " 10 " == " " + Decimal(10) + " ";
    DecimalTextGivesTimer(10, " ", " ");
  }

  /** The record built from the form of the session below. */
  lemma FridayRecord()
    ensures !IsBlank("  Friday ")
    ensures MakeGroup("1", "  Friday ", ["A", "", "B"], true, " 10 ", "sound2", "t")
            == Group("1", "Friday", ["A", "B"], true, Some(10), "sound2", "t")
  {
    FridayName();
    FridayMembers();
    FridayTimer();
  }

  /**
   * A whole editing session: name "  Friday ", members "A", a blank slot and
   * "B", timer on with " 10 ", alarm 2; then save into an empty store.
   */
  method FridaySession() returns (outcome: SaveOutcome, stored: Option<seq<Group>>)
    ensures outcome == Saved(Group("1", "Friday", ["A", "B"], true, Some(10), "sound2", "t"))
    ensures stored == Some([outcome.group])
  {
    var storage := new GroupStorage(None);
    var modal := new AddGroupModal();
    modal.SetGroupName("  Friday ");
    modal.EditMember(0, "A");
    modal.AddMemberField();
    modal.AddMemberField();
    modal.EditMember(2, "B");
    modal.SetTimerEnabled(true);
    modal.SetTimerSeconds(" 10 ");
    modal.SelectAlarm("sound2");
    assert modal.members == ["A", "", "B"];
    assert modal.groupName == "  Friday " && modal.timerEnabled;
    assert modal.timerSeconds == " 10 " && modal.selectedAlarm == "sound2";
    FridayRecord();
    outcome := modal.Save(storage, "1", "t", false);
    assert outcome.Saved?;
    stored := storage.groups;
  }
}

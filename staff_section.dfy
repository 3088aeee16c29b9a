/** The staff section of the salon form: appending a blank staff member and
    removing the member at a position, both through the shared form store. */
module StaffSection {
  import opened JsValues
  import opened ListOps
  import opened SalonForm

  /** The entry `addStaffMember` appends: no name, role, expertise or image,
      and a rating of 5. */
  const BlankStaffMember: StaffMember := StaffMember("", "", [], None, 5)

  /** `addStaffMember`: the list (empty when unset) grows by the blank member;
      the earlier entries and the services list stay as they were. */
  method AddStaffMember(form: FormStore)
    modifies form
    ensures form.staff.Some? && |form.staff.value| == |old(form.StaffOrEmpty())| + 1
    ensures form.staff.value[..|old(form.StaffOrEmpty())|] == old(form.StaffOrEmpty())
    ensures form.staff.value[|old(form.StaffOrEmpty())|] == BlankStaffMember
    ensures form.services == old(form.services)
  {
    var current := form.StaffOrEmpty();
    form.SetStaff(current + [BlankStaffMember]);
    assert (current + [BlankStaffMember])[..|current|] == current;
  }

  /** `removeStaffMember(index)`: the list (empty when unset) without position
      `index`; an index outside the list changes nothing. */
  method RemoveStaffMember(form: FormStore, index: int)
    modifies form
    ensures form.staff == Some(DropPosition(old(form.StaffOrEmpty()), index))
    ensures 0 <= index < |old(form.StaffOrEmpty())| ==>
      form.staff.value == old(form.StaffOrEmpty())[..index] + old(form.StaffOrEmpty())[index + 1..]
    ensures !(0 <= index < |old(form.StaffOrEmpty())|) ==> form.staff.value == old(form.StaffOrEmpty())
    ensures form.services == old(form.services)
  {
    var current := form.StaffOrEmpty();
    DropPositionSpec(current, index);
    form.SetStaff(DropPosition(current, index));
  }

  /** Adding a member and then removing the last position gives back the list
      as it was (an unset list comes back as the empty list). */
  method AddThenRemoveLast(form: FormStore)
    modifies form
    ensures form.staff == Some(old(form.StaffOrEmpty()))
    ensures form.services == old(form.services)
  {
    ghost var before := form.StaffOrEmpty();
    AddStaffMember(form);
    var last := |form.staff.value| - 1;
    assert form.staff.value == before + [BlankStaffMember];
    RemoveStaffMember(form, last);
    AppendThenDropLast(before, BlankStaffMember);
  }
}

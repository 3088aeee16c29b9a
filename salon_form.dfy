/** The form store that the services and staff sections of the salon
    registration form share: each section reads its list with `getValues` and
    writes a new list back with `setValue`. Either list may still be unset. */
module SalonForm {
  import opened JsValues

  /** One entry of the `services` list. */
  datatype Service = Service(name: string, description: string, price: string, duration: string,
                             experts: seq<string>)

  /** One entry of the `staff` list; `image` is the chosen file's name, if any. */
  datatype StaffMember = StaffMember(name: string, role: string, expertise: seq<string>,
                                     image: Option<string>, rating: int)

  class FormStore {
    var services: Option<seq<Service>>
    var staff: Option<seq<StaffMember>>

    constructor ()
      ensures services == None && staff == None
    {
      services, staff := None, None;
    }

    /** `getValues("services") || []` */
    function ServicesOrEmpty(): seq<Service>
      reads this
    {
      if services.Some? then services.value else []
    }

    /** `getValues("staff") || []` */
    function StaffOrEmpty(): seq<StaffMember>
      reads this
    {
      if staff.Some? then staff.value else []
    }

    /** `setValue("services", v)` */
    method SetServices(v: seq<Service>)
      modifies this
      ensures services == Some(v) && staff == old(staff)
    {
      services := Some(v);
    }

    /** `setValue("staff", v)` */
    method SetStaff(v: seq<StaffMember>)
      modifies this
      ensures staff == Some(v) && services == old(services)
    {
      staff := Some(v);
    }
  }
}

/** The admin site's user page: which profile inline it shows. */
module AccountsAdmin {
  import opened Wrappers
  import opened PyValues

  datatype Inline = EmployeeInline | ManagerInline

  /** The user being edited, as far as the choice looks at it. */
  datatype EditedUser = EditedUser(role: PyValue)

  /** `get_inline_instances`: nothing on the add page, and on a change page
      the inline of the user's role, if it is one of the two. */
  function GetInlineInstances(obj: Option<EditedUser>): (r: seq<Inline>)
    ensures |r| <= 1
    ensures obj.None? ==> r == []
    ensures r == [EmployeeInline] <==> obj == Some(EditedUser(PyStr("employee")))
    ensures r == [ManagerInline] <==> obj == Some(EditedUser(PyStr("manager")))
    ensures r == [] <==> obj.None? || (obj.value.role != PyStr("employee") && obj.value.role != PyStr("manager"))
  {
    if obj.None? then []
    else if obj.value.role == PyStr("employee") then [EmployeeInline]
    else if obj.value.role == PyStr("manager") then [ManagerInline]
    else []
  }
}

/**
 * screens/EmployeeScreen.tsx: the employee list with its add, edit and
 * delete actions and the name check made before saving.
 */
module EmployeeScreen {
  import opened Wrappers
  import opened Seqs
  import opened Strings
  import opened Types
  import opened Storage

  /**
   * The employee `handleSave` writes: none for a name of only whitespace;
   * else the trimmed name, under the edited employee's id or, for a new
   * employee, `emp-<now>` with `now` the value of `Date.now()`.
   */
  function EmployeeToSave(editing: Option<Employee>, name: string, now: nat): (e: Option<Employee>)
    ensures e.None? <==> forall i :: 0 <= i < |name| ==> IsWhitespace(name[i])
    ensures e.Some? ==> e.value.name == Trim(name)
    ensures e.Some? && editing.Some? ==> e.value == editing.value.(name := Trim(name))
    ensures e.Some? && editing.None? ==> e.value.id == "emp-" + NatToString(now)
  {
    var trimmed := Trim(name);
    if trimmed == [] then None
    else if editing.Some? then Some(editing.value.(name := trimmed))
    else Some(Employee("emp-" + NatToString(now), trimmed))
  }

  /**
   * A saved name has no whitespace at either end, so saving it again
   * unchanged writes the same employee.
   */
  lemma SavedNameIsStable(editing: Option<Employee>, name: string, now: nat)
    requires EmployeeToSave(editing, name, now).Some?
    ensures var e := EmployeeToSave(editing, name, now).value;
      && !IsWhitespace(e.name[0]) && !IsWhitespace(e.name[|e.name| - 1])
      && EmployeeToSave(Some(e), e.name, now) == Some(e)
  {
    var t := Trim(name);
    var e := EmployeeToSave(editing, name, now).value;
    assert e.name == t && t != [];
    assert Trim(t) == t by {
      TrimIdempotent(name);
    }
    assert e.(name := t) == e;
  }

  class EmployeeList {
    var employees: seq<Employee>
    var editingEmployee: Option<Employee>
    var employeeName: string
    var modalVisible: bool

    constructor ()
      ensures employees == [] && editingEmployee == None && employeeName == "" && !modalVisible
    {
      employees := [];
      editingEmployee := None;
      employeeName := "";
      modalVisible := false;
    }

    /** `loadEmployees` */
    method LoadEmployees(store: Store)
      modifies this`employees
      ensures employees == store.GetEmployees()
    {
      employees := store.GetEmployees();
    }

    /** `handleAdd`: a new employee with an empty name. */
    method HandleAdd()
      modifies this`editingEmployee, this`employeeName, this`modalVisible
      ensures editingEmployee == None && employeeName == "" && modalVisible
    {
      editingEmployee := None;
      employeeName := "";
      modalVisible := true;
    }

    /** `handleEdit`: that employee, with the name field preloaded. */
    method HandleEdit(employee: Employee)
      modifies this`editingEmployee, this`employeeName, this`modalVisible
      ensures editingEmployee == Some(employee) && employeeName == employee.name && modalVisible
    {
      editingEmployee := Some(employee);
      employeeName := employee.name;
      modalVisible := true;
    }

    /** Typing in the name field. */
    method SetEmployeeName(name: string)
      modifies this`employeeName
      ensures employeeName == name
    {
      employeeName := name;
    }

    /**
     * `handleDelete` after the dialog: on cancel nothing changes; on confirm
     * every employee with that id is removed and the list reloaded. The
     * work records are never touched.
     */
    method HandleDelete(store: Store, employee: Employee, confirmed: bool)
      modifies store`employeeData, this`employees
      ensures store.workRecordData == old(store.workRecordData)
      ensures !confirmed ==> store.employeeData == old(store.employeeData) && employees == old(employees)
      ensures confirmed ==>
        && store.GetEmployees() == Filter(old(store.GetEmployees()), NotEmployeeId(employee.id))
        && employees == store.GetEmployees()
    {
      if confirmed {
        store.DeleteEmployee(employee.id);
        LoadEmployees(store);
      }
    }

    /**
     * `handleSave`: a blank name is refused and nothing is written; else the
     * edited employee is replaced in place, or the new one appended, the form
     * closes and the list is reloaded.
     */
    method HandleSave(store: Store, now: nat) returns (saved: bool)
      modifies store`employeeData, this`employees, this`modalVisible
      ensures saved == EmployeeToSave(editingEmployee, employeeName, now).Some?
      ensures !saved ==> store.employeeData == old(store.employeeData) && employees == old(employees) && modalVisible == old(modalVisible)
      ensures saved && editingEmployee.None? ==>
        store.GetEmployees() == old(store.GetEmployees()) + [EmployeeToSave(editingEmployee, employeeName, now).value]
      ensures saved && editingEmployee.Some? ==>
        store.GetEmployees() == ReplaceFirst(old(store.GetEmployees()), HasEmployeeId(editingEmployee.value.id),
                                             EmployeeToSave(editingEmployee, employeeName, now).value)
      ensures saved ==> !modalVisible && employees == store.GetEmployees()
    {
      if Trim(employeeName) == [] {
        return false;
      }
      if editingEmployee.Some? {
        store.UpdateEmployee(editingEmployee.value.(name := Trim(employeeName)));
      } else {
        var newEmployee := Employee("emp-" + NatToString(now), Trim(employeeName));
        store.AddEmployee(newEmployee);
      }
      modalVisible := false;
      LoadEmployees(store);
      saved := true;
    }
  }
}

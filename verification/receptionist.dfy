/**
 * The receptionist's own table put through the decision logic: concrete
 * outcomes at chosen hours for the four departments it routes to.
 */
module Receptionist {
  import opened Wrappers
  import opened Text
  import opened Directory
  import opened Handlers

  /** Sales takes calls at 10:00 and sends the caller to its number. */
  lemma SalesOpenAtTen()
    ensures IsOpen(Departments, "sales", 10) == Open
    ensures TransferToDepartment(Departments, "Sales", 10).connect == Some(Connect("+15551111111", true))
  {
    assert Lower("Sales") == "sales";
  }

  /** The sales department, as the table files it. */
  lemma SalesEntry()
    ensures Get(Departments, "sales") == Department("+15551111111", "New purchases and pricing", 9, 18)
  {
  }

  lemma SalesHours()
    ensures HoursText(Department("+15551111111", "New purchases and pricing", 9, 18)) == "9:00 to 18:00"
  {
    assert NatToString(18) == "18";
  }

  /** From 18:00 on (19:00, say) sales is closed and says when it is open. */
  lemma SalesClosedFromSix(hour: Hour)
    requires hour >= 18
    ensures IsOpen(Departments, "sales", hour) == Closed("Sales is open 9:00 to 18:00")
  {
    SalesClosedMessage();
    OpenExactlyWithinHours(Departments, "sales", hour);
  }

  lemma SalesClosedMessage()
    ensures ClosedMessage("sales", Get(Departments, "sales")) == "Sales is open 9:00 to 18:00"
  {
    SalesEntry();
    SalesHours();
    TitleOfLowerWord("sales");
    var title, hours := Title("sales"), HoursText(Get(Departments, "sales"));
    assert ClosedMessage("sales", Get(Departments, "sales")) == title + " is open " + hours;
    SalesSentence(title, hours);
  }

  lemma SalesSentence(title: string, hours: string)
    requires title == "Sales" && hours == "9:00 to 18:00"
    ensures title + " is open " + hours == "Sales is open 9:00 to 18:00"
  {
  }

  /** The returns department, as the table files it. */
  lemma ReturnsEntry()
    ensures Lower("returns") == "returns"
    ensures Get(Departments, "returns") == Department("+15554444444", "Returns and exchanges", 10, 16)
  {
    DepartmentsWellFormed();
    LowerOfLowerWord("returns");
    LookupFindsEntry(Departments, 3);
  }

  /** Returns at 20:00: the apology quotes its 10:00 to 16:00 window, and no transfer. */
  lemma ReturnsClosedAtTwenty()
    ensures TransferToDepartment(Departments, "returns", 20).connect.None?
    ensures Contains(TransferToDepartment(Departments, "returns", 20).response, "10:00 to 16:00")
  {
    ReturnsEntry();
    ReturnsHours();
    TransferClosedApologises(Departments, "returns", 20);
    TransferClosedQuotesHours(Departments, "returns", 20);
  }

  lemma ReturnsHours()
    ensures HoursText(Department("+15554444444", "Returns and exchanges", 10, 16)) == "10:00 to 16:00"
  {
    assert NatToString(10) == "10";
    assert NatToString(16) == "16";
  }

  /** The agent's keys, in table order. */
  lemma DepartmentKeys()
    ensures Keys(Departments) == ["sales", "support", "billing", "returns"]
  {
    var k := Keys(Departments);
    assert k[0] == "sales" && k[1] == "support" && k[2] == "billing" && k[3] == "returns";
  }

  /** Any name that is none of the four keys is answered with those keys, in table order. */
  lemma UnknownNameListsAllKeys(name: string, hour: Hour)
    requires Lower(name) !in ["sales", "support", "billing", "returns"]
    ensures TransferToDepartment(Departments, name, hour) ==
      Reply(UnknownPrefix + Join(", ", ["sales", "support", "billing", "returns"]))
  {
    DepartmentKeys();
    TransferUnknownListsKeys(Departments, name, hour);
  }
}

/**
 * The receptionist's five tools as pure functions of their arguments, the
 * department table and the clock's hour. Each returns the result object the
 * agent runtime receives: a reply, the post-processing flag, an optional
 * patch for the call's global data and an optional connect directive.
 */
module Handlers {
  import opened Wrappers
  import opened Text
  import opened Directory

  /** A value in the call's global data. */
  datatype Value = Str(s: string) | Flag(b: bool) | Null

  /** Bridge the call to `destination`; `final` ends the receptionist's leg. */
  datatype Connect = Connect(destination: string, final: bool)

  /** What a tool returns to the agent runtime. */
  datatype Result = Result(
    response: string,
    postProcess: bool,
    globalData: Option<map<string, Value>>,
    connect: Option<Connect>)

  /** A result with a reply only: no post-processing, no data, no transfer. */
  function Reply(text: string): Result
  {
    Result(text, false, None, None)
  }

  /** The context handed to the department that receives a transferred call. */
  datatype TransferContext = TransferContext(
    transferReason: string,
    callerName: string,
    transferTime: string,
    fromReceptionist: bool)

  /** A voicemail left for a department. */
  datatype VoicemailRecord = VoicemailRecord(
    department: string,
    message: string,
    callback: Option<string>,
    recordedTime: string)

  /** The global-data patch that carries a transfer context. */
  function TransferContextData(c: TransferContext): (m: map<string, Value>)
    ensures m.Keys == {"transfer_reason", "caller_name", "transfer_time", "from_receptionist"}
  {
    map[
      "transfer_reason" := Str(c.transferReason),
      "caller_name" := Str(c.callerName),
      "transfer_time" := Str(c.transferTime),
      "from_receptionist" := Flag(c.fromReceptionist)]
  }

  /** How the receiving side reads a transfer context back out of global data. */
  function ReadTransferContext(m: map<string, Value>): Option<TransferContext>
  {
    if && "transfer_reason" in m && m["transfer_reason"].Str?
       && "caller_name" in m && m["caller_name"].Str?
       && "transfer_time" in m && m["transfer_time"].Str?
       && "from_receptionist" in m && m["from_receptionist"].Flag?
    then Some(TransferContext(
      m["transfer_reason"].s, m["caller_name"].s, m["transfer_time"].s, m["from_receptionist"].b))
    else None
  }

  /** A transfer context survives the trip through global data unchanged. */
  lemma TransferContextRoundTrip(c: TransferContext)
    ensures ReadTransferContext(TransferContextData(c)) == Some(c)
  {
  }

  /** An optional string as a global-data value: Python's `None` becomes null. */
  function OptionalStr(o: Option<string>): Value
  {
    match o
    case None => Null
    case Some(s) => Str(s)
  }

  /** The global-data patch that carries a voicemail. */
  function VoicemailData(v: VoicemailRecord): (m: map<string, Value>)
    ensures m.Keys == {"voicemail_department", "voicemail_message", "voicemail_callback", "voicemail_time"}
  {
    map[
      "voicemail_department" := Str(v.department),
      "voicemail_message" := Str(v.message),
      "voicemail_callback" := OptionalStr(v.callback),
      "voicemail_time" := Str(v.recordedTime)]
  }

  /** How a reader of global data recovers a voicemail. */
  function ReadVoicemail(m: map<string, Value>): Option<VoicemailRecord>
  {
    if && "voicemail_department" in m && m["voicemail_department"].Str?
       && "voicemail_message" in m && m["voicemail_message"].Str?
       && "voicemail_callback" in m && !m["voicemail_callback"].Flag?
       && "voicemail_time" in m && m["voicemail_time"].Str?
    then
      var callback := if m["voicemail_callback"].Str? then Some(m["voicemail_callback"].s) else None;
      Some(VoicemailRecord(
        m["voicemail_department"].s, m["voicemail_message"].s, callback, m["voicemail_time"].s))
    else None
  }

  /** A voicemail, with or without a callback number, survives the trip through global data. */
  lemma VoicemailRoundTrip(v: VoicemailRecord)
    ensures ReadVoicemail(VoicemailData(v)) == Some(v)
  {
  }

  /** One line of the department listing: the title-cased name and the description. */
  function ListingLine(e: Entry): string
  {
    Title(e.key) + ": " + e.info.description
  }

  function ListingLines(t: Table): (r: seq<string>)
    ensures |r| == |t|
    ensures forall i :: 0 <= i < |t| ==> r[i] == ListingLine(t[i])
  {
    if t == [] then [] else [ListingLine(t[0])] + ListingLines(t[1..])
  }

  const ListPrefix: string := "Our departments: "

  /** `list_departments`: every department with its description, in table order. */
  function ListDepartments(t: Table): (r: Result)
    ensures !r.postProcess && r.globalData.None? && r.connect.None?
    ensures |r.response| >= |ListPrefix| && r.response[..|ListPrefix|] == ListPrefix
    ensures |t| >= 1 ==>
      |r.response| == |ListPrefix| + SumOfLengths(ListingLines(t)) + 2 * (|t| - 1)
  {
    Reply(ListPrefix + Join("; ", ListingLines(t)))
  }

  /** The listing names every department of the table and transfers nothing. */
  lemma ListMentionsEveryDepartment(t: Table, i: nat)
    requires i < |t|
    ensures Contains(ListDepartments(t).response, Title(t[i].key) + ": " + t[i].info.description)
    ensures ListDepartments(t).response[..|ListPrefix|] == ListPrefix
    ensures ListDepartments(t).connect.None? && ListDepartments(t).globalData.None?
  {
    JoinContainsEveryPart("; ", ListingLines(t), i);
    ContainsInSuffix(ListPrefix, Join("; ", ListingLines(t)), ListingLines(t)[i]);
  }

  /** `check_availability`: report the closing hour when open, the reason otherwise. */
  function CheckAvailability(t: Table, department: string, hour: Hour): (r: Result)
    ensures !r.postProcess && r.globalData.None? && r.connect.None?
  {
    var key := Lower(department);
    match IsOpen(t, key, hour)
    case Open =>
      // Open implies known, so this `.get` never yields None.
      var d := Lookup(t, key).value;
      Reply(Title(key) + " is open until " + (NatToString(d.closeHour) + ":00")
            + ". Would you like me to transfer you?")
    case Closed(reason) => Reply(reason)
  }

  /**
   * Outside its hours, or for an unknown name, the availability reply is the
   * availability check's own reason.
   */
  lemma CheckAvailabilityRelaysReason(t: Table, department: string, hour: Hour)
    requires IsOpen(t, Lower(department), hour).Closed?
    ensures CheckAvailability(t, department, hour).response == IsOpen(t, Lower(department), hour).reason
    ensures Lower(department) !in Keys(t) ==>
      CheckAvailability(t, department, hour).response == UnknownDepartment
  {
  }

  /** Inside its hours, the availability reply names the department's closing hour. */
  lemma CheckAvailabilityNamesClosingHour(t: Table, department: string, hour: Hour)
    requires IsOpen(t, Lower(department), hour).Open?
    ensures Lower(department) in Keys(t)
    ensures Contains(CheckAvailability(t, department, hour).response,
                     NatToString(Get(t, Lower(department)).closeHour) + ":00")
  {
    var key := Lower(department);
    ContainsMiddle(Title(key) + " is open until ", NatToString(Get(t, key).closeHour) + ":00",
                   ". Would you like me to transfer you?");
  }

  const UnknownPrefix: string := "Unknown department. Available: "

  /** `transfer_to_department`: connect to an open department, explain otherwise. */
  function TransferToDepartment(t: Table, department: string, hour: Hour): (r: Result)
    ensures !r.postProcess && r.globalData.None?
  {
    var key := Lower(department);
    match Lookup(t, key)
    case None => Reply(UnknownPrefix + Join(", ", Keys(t)))
    case Some(d) =>
      match IsOpen(t, key, hour)
      case Closed(reason) =>
        Reply("I'm sorry, " + reason + ". Would you like to leave a message or try a different department?")
      case Open =>
        Result("Connecting you to " + key + " now.", false, None, Some(Connect(d.number, true)))
  }

  /**
   * A transfer is emitted exactly when the department is open, and then it
   * goes to that department's own number and ends the receptionist's leg.
   */
  lemma TransferConnectsExactlyWhenOpen(t: Table, department: string, hour: Hour)
    ensures TransferToDepartment(t, department, hour).connect.Some? <==>
      IsOpen(t, Lower(department), hour).Open?
    ensures TransferToDepartment(t, department, hour).connect.Some? ==>
      Lower(department) in Keys(t) &&
      TransferToDepartment(t, department, hour).connect.value ==
        Connect(Get(t, Lower(department)).number, true)
  {
  }

  /** An unknown name gets the list of every valid key, in table order, and no transfer. */
  lemma TransferUnknownListsKeys(t: Table, department: string, hour: Hour)
    requires Lower(department) !in Keys(t)
    ensures TransferToDepartment(t, department, hour) == Reply(UnknownPrefix + Join(", ", Keys(t)))
    ensures forall i :: 0 <= i < |t| ==> Contains(TransferToDepartment(t, department, hour).response, t[i].key)
  {
    forall i | 0 <= i < |t|
      ensures Contains(TransferToDepartment(t, department, hour).response, t[i].key)
    {
      JoinContainsEveryPart(", ", Keys(t), i);
      ContainsInSuffix(UnknownPrefix, Join(", ", Keys(t)), Keys(t)[i]);
    }
  }

  /** A known but closed department gets the apology with its hours and no transfer. */
  lemma TransferClosedApologises(t: Table, department: string, hour: Hour)
    requires Lower(department) in Keys(t)
    requires !WithinHours(Get(t, Lower(department)), hour)
    ensures TransferToDepartment(t, department, hour).connect.None?
    ensures TransferToDepartment(t, department, hour).response ==
      "I'm sorry, " + ClosedMessage(Lower(department), Get(t, Lower(department))) +
      ". Would you like to leave a message or try a different department?"
  {
  }

  /** The closed apology quotes the department's own window, "<open>:00 to <close>:00". */
  lemma TransferClosedQuotesHours(t: Table, department: string, hour: Hour)
    requires Lower(department) in Keys(t)
    requires !WithinHours(Get(t, Lower(department)), hour)
    ensures Contains(TransferToDepartment(t, department, hour).response,
                     HoursText(Get(t, Lower(department))))
  {
    var key := Lower(department);
    var d := Get(t, key);
    TransferClosedApologises(t, department, hour);
    ContainsMiddle("I'm sorry, ", ClosedMessage(key, d),
                   ". Would you like to leave a message or try a different department?");
    ContainsSuffix(Title(key) + " is open ", HoursText(d));
    ContainsTransitive(TransferToDepartment(t, department, hour).response, ClosedMessage(key, d), HoursText(d));
  }

  /** `caller_name or "Unknown"`: an absent or empty name becomes "Unknown". */
  function CallerNameOrDefault(callerName: Option<string>): (n: string)
    ensures n != ""
    ensures callerName.Some? && callerName.value != "" ==> n == callerName.value
    ensures callerName.None? || callerName.value == "" ==> n == "Unknown"
  {
    if callerName.Some? && callerName.value != "" then callerName.value else "Unknown"
  }

  /**
   * `transfer_with_context`: when open, post-process, hand over the transfer
   * context and connect; otherwise offer a voicemail.
   */
  function TransferWithContext(
    t: Table, department: string, reason: string, callerName: Option<string>,
    now: string, hour: Hour): (r: Result)
    ensures r.connect.Some? <==> IsOpen(t, Lower(department), hour).Open?
    ensures r.postProcess <==> r.connect.Some?
    ensures r.globalData.Some? <==> r.connect.Some?
  {
    var key := Lower(department);
    match IsOpen(t, key, hour)
    case Closed(message) =>
      Reply("Sorry, " + message + ". Would you like to leave a voicemail?")
    case Open =>
      // The direct index is safe: an open department is a known one.
      var d := Get(t, key);
      var context := TransferContext(reason, CallerNameOrDefault(callerName), now, true);
      Result(
        "I'm transferring you to " + key + ". I'll let them know about your " + reason + ".",
        true,
        Some(TransferContextData(context)),
        Some(Connect(d.number, true)))
  }

  /** When the department is not open, only the apology comes back. */
  lemma TransferWithContextClosed(
    t: Table, department: string, reason: string, callerName: Option<string>,
    now: string, hour: Hour)
    requires IsOpen(t, Lower(department), hour).Closed?
    ensures TransferWithContext(t, department, reason, callerName, now, hour) ==
      Reply("Sorry, " + IsOpen(t, Lower(department), hour).reason + ". Would you like to leave a voicemail?")
  {
  }

  /**
   * When the department is open, the receiving side can read back the
   * reason, the caller's name (or "Unknown"), the time and the receptionist
   * flag, and the call goes to the department's own number.
   */
  lemma TransferWithContextOpen(
    t: Table, department: string, reason: string, callerName: Option<string>,
    now: string, hour: Hour)
    requires IsOpen(t, Lower(department), hour).Open?
    ensures Lower(department) in Keys(t)
    ensures TransferWithContext(t, department, reason, callerName, now, hour).postProcess
    ensures TransferWithContext(t, department, reason, callerName, now, hour).globalData.Some?
    ensures ReadTransferContext(TransferWithContext(t, department, reason, callerName, now, hour).globalData.value)
      == Some(TransferContext(reason, CallerNameOrDefault(callerName), now, true))
    ensures TransferWithContext(t, department, reason, callerName, now, hour).globalData.value.Keys
      == {"transfer_reason", "caller_name", "transfer_time", "from_receptionist"}
    ensures TransferWithContext(t, department, reason, callerName, now, hour).connect
      == Some(Connect(Get(t, Lower(department)).number, true))
  {
    TransferContextRoundTrip(TransferContext(reason, CallerNameOrDefault(callerName), now, true));
  }

  /** `leave_voicemail`: always records the message; no lookup, no clock, no transfer. */
  function LeaveVoicemail(department: string, message: string, callback: Option<string>, now: string): (r: Result)
    ensures r.connect.None? && !r.postProcess
    ensures r.globalData.Some?
    ensures ReadVoicemail(r.globalData.value) == Some(VoicemailRecord(department, message, callback, now))
  {
    var record := VoicemailRecord(department, message, callback, now);
    VoicemailRoundTrip(record);
    Result(
      "Your message for " + department + " has been recorded. They'll receive it when they open.",
      false,
      Some(VoicemailData(record)),
      None)
  }

  /**
   * The three looking-up tools depend on the department name only up to
   * case: spellings that differ in case give identical results.
   */
  lemma HandlersIgnoreCase(
    t: Table, a: string, b: string, reason: string, callerName: Option<string>,
    now: string, hour: Hour)
    requires EqualIgnoringCase(a, b)
    ensures CheckAvailability(t, a, hour) == CheckAvailability(t, b, hour)
    ensures TransferToDepartment(t, a, hour) == TransferToDepartment(t, b, hour)
    ensures TransferWithContext(t, a, reason, callerName, now, hour)
      == TransferWithContext(t, b, reason, callerName, now, hour)
  {
    EqualIgnoringCaseLower(a, b);
  }

  /**
   * In a table of unique lower-case keys, a department is reached under any
   * casing of its name, and during its hours that reach ends in a transfer
   * to its number.
   */
  lemma AnyCasingTransfersWhenOpen(t: Table, name: string, i: nat, hour: Hour)
    requires UniqueKeys(t) && LowerCaseKeys(t)
    requires i < |t|
    requires EqualIgnoringCase(name, t[i].key)
    requires WithinHours(t[i].info, hour)
    ensures TransferToDepartment(t, name, hour).connect == Some(Connect(t[i].info.number, true))
  {
    AnyCasingFindsDepartment(t, name, i);
  }
}

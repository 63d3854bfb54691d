# Receptionist routing, modelled in Dafny

This project models the decision logic of a receptionist voice agent. The
agent routes callers to one of four departments: sales, support, billing and
returns. Each department has a phone number, a description and an
`(open, close)` window of local hours. Five tools decide what to say and what
to do:

- `list_departments` reads the table out;
- `check_availability` says whether a department is open now;
- `transfer_to_department` connects the caller when the department is open;
- `transfer_with_context` also hands the receiving department a context
  record (reason, caller name, time, a receptionist flag);
- `leave_voicemail` records a message in the call's global data.

The model is pure. The clock's hour is a parameter `hour: Hour` (0..23). The
ISO timestamp is an opaque string parameter `now`. The result object the SDK
builds is the datatype `Handlers.Result`:
`Result(response, postProcess, globalData, connect)`.

Modules:

- `Wrappers` holds `Option`, which stands for Python's `None`.
- `Text` holds ASCII `lower()` and `title()`, `str(n)` for the hours, and `join`.
- `Directory` holds the department table (`Departments`), the lookup and the
  availability check `IsOpen`.
- `Handlers` holds the five tools and the global-data records.
- `Receptionist` holds the agent's own table run through the logic at chosen hours.

The check and the tools take the table as a parameter `t`, so their lemmas
hold for any table. The agent uses the constant `Directory.Departments`. The
table keeps its entries in the order they are written, as a Python dict does.

Behaviour of the code that the model keeps:

- `transfer_with_context` also takes the apology path for a name that is not
  in the table, and the apology then quotes "Unknown department"
  (reference/solution.py:183-188).
- The handler bodies handle any string as a department name. The declared
  schemas of `transfer_to_department` and `transfer_with_context` restrict
  the name to the table's keys (reference/solution.py:124, 161); the schema
  of `check_availability` leaves it free. The model covers the wider domain,
  so the unknown-name branches are modelled for all three.
- `caller_name or "Unknown"` replaces an empty name as well as a missing one
  (`Handlers.CallerNameOrDefault`).
- A table here is a sequence of entries. It can hold a key twice, which a
  dict literal cannot; `Directory.Lookup` then finds the first such entry,
  whereas a dict literal would keep the last. The lemmas that do not assume
  `UniqueKeys` therefore also cover such tables; the agent's own table has
  unique keys (`Directory.DepartmentsWellFormed`).

## Model

| member | source | states |
|---|---|---|
| Directory.Lookup | reference/solution.py:68 | `.get` finds nothing exactly when the key is not among the table's keys; otherwise it returns the department of an entry filed under that key |
| Directory.Keys | reference/solution.py:136 | `DEPARTMENTS.keys()` lists every entry's key, one per entry, in table order |
| Directory.LookupFindsEntry | reference/solution.py:15-36 | with unique keys (a dict literal), looking up an entry's key gives that entry's department |
| Directory.Get | reference/solution.py:190 | the direct index `DEPARTMENTS[key]` is only allowed on a known key, and it agrees with `.get` |
| Directory.IsOpen | reference/solution.py:66-78 | an "open" answer is only ever given for a key that is in the table |
| Directory.UnknownKeyIsClosed | reference/solution.py:68-70 | a key missing from the table gives `(False, "Unknown department")` at every hour |
| Directory.OpenExactlyWithinHours | reference/solution.py:72-78 | a known department is open exactly when `start <= hour < end`; when closed, the reason is built from that department's own title and hours |
| Directory.OpeningAndClosingHours | reference/solution.py:75-76 | the opening hour and the last hour before closing are open; the closing hour and the hour before opening are closed |
| Directory.EmptyWindowNeverOpen | reference/solution.py:75-78 | a window with `start >= end` is never open (the unvalidated configuration case) |
| Directory.ClosedMessageDeterminesHours | reference/solution.py:77-78 | two departments with the same title and the same closed message have the same opening and closing hours, so the message carries both hours |
| Directory.DepartmentsWellFormed | reference/solution.py:15-36 | the agent's table has unique keys, all non-empty and in small letters |
| Directory.AnyCasingFindsDepartment | reference/solution.py:132-133 | any casing of a department's name reaches that department after `.lower()` |
| Text.Lower | reference/solution.py:105 | `lower()` keeps the length and lower-cases each character on its own |
| Text.LowerIsIdempotent | reference/solution.py:105 | lowering twice equals lowering once, and the result holds no capitals |
| Text.EqualIgnoringCaseLower | reference/solution.py:105 | two strings agree letter by letter up to case exactly when their lowered forms are equal |
| Text.Title | reference/solution.py:78 | `title()` changes only the case of letters |
| Text.LowerOfTitle | reference/solution.py:78 | lowering a title-cased name gives back the lowered name |
| Text.TitleOfLowerWord | reference/solution.py:78 | the title of a one-word lower-case key capitalises only its first letter |
| Text.NatToString | reference/solution.py:78 | `str(n)` is a non-empty run of decimal digits with no leading zero |
| Text.ParseNatToString | reference/solution.py:78 | reading a rendered hour back as decimal gives the hour |
| Text.NatToStringInjective | reference/solution.py:78 | different hours render as different strings |
| Text.JoinContainsEveryPart | reference/solution.py:136 | every part of a `join` occurs in the joined string |
| Text.Join | reference/solution.py:136 | `sep.join(parts)` of a non-empty list is as long as the parts together plus one separator between each pair of neighbours |
| Handlers.TransferContextData | reference/solution.py:193-198 | the context patch has exactly the keys `transfer_reason`, `caller_name`, `transfer_time` and `from_receptionist` |
| Handlers.TransferContextRoundTrip | reference/solution.py:193-198 | the receiving side reads back the same reason, name, time and flag that were sent |
| Handlers.VoicemailData | reference/solution.py:241-246 | the voicemail patch has exactly the four `voicemail_*` keys |
| Handlers.VoicemailRoundTrip | reference/solution.py:241-246 | a voicemail, with or without a callback number, reads back unchanged from global data |
| Handlers.ListDepartments | reference/solution.py:84-89 | the listing never transfers, post-processes or attaches data; it starts "Our departments: " and is as long as the "<Title>: <description>" lines plus one "; " between neighbours (its contents are stated by `ListMentionsEveryDepartment`) |
| Handlers.ListMentionsEveryDepartment | reference/solution.py:84-89 | the listing starts "Our departments: ", contains "<Title>: <description>" for every department, and attaches no data or transfer |
| Handlers.CheckAvailability | reference/solution.py:104-115 | checking availability never transfers, never post-processes and never touches global data |
| Handlers.CheckAvailabilityRelaysReason | reference/solution.py:106-115 | when not open, the reply is the check's own reason, so an unknown name gets "Unknown department" |
| Handlers.CheckAvailabilityNamesClosingHour | reference/solution.py:108-114 | when open, the department is known (the `.get` cannot miss) and the reply names its closing hour |
| Handlers.TransferToDepartment | reference/solution.py:131-152 | a plain transfer never post-processes and never attaches global data |
| Handlers.TransferConnectsExactlyWhenOpen | reference/solution.py:141-152 | a connect directive appears exactly when the department is open; it goes to that department's number with `final = true` |
| Handlers.TransferUnknownListsKeys | reference/solution.py:132-139 | an unknown name gets "Unknown department. Available: " followed by the table's keys in order, joined by ", ", with no connect; every key appears in the reply |
| Handlers.TransferClosedApologises | reference/solution.py:141-147 | a known but closed department gets the apology around its closed message and no connect |
| Handlers.TransferClosedQuotesHours | reference/solution.py:143-147 | the closed apology quotes the department's own "<open>:00 to <close>:00" window |
| Handlers.CallerNameOrDefault | reference/solution.py:195 | the caller name is the given name when it is present and non-empty, and "Unknown" otherwise; it is never empty |
| Handlers.TransferWithContext | reference/solution.py:176-208 | a connect directive appears exactly when the department is open, and post-processing and global data appear together with it |
| Handlers.TransferWithContextClosed | reference/solution.py:183-188 | when not open (unknown or closed), only the voicemail apology comes back: no data, no connect, no post-processing |
| Handlers.TransferWithContextOpen | reference/solution.py:190-207 | when open, the department is known, post-processing is on, the context has exactly the four keys and reads back as (reason, name or "Unknown", time, true), and the call goes to the department's number with `final = true` |
| Handlers.LeaveVoicemail | reference/solution.py:231-247 | a voicemail never connects or post-processes; it always attaches a record that reads back as the department string unchanged, the message, the callback (possibly absent) and the time |
| Handlers.HandlersIgnoreCase | reference/solution.py:105 | names that differ only in letter case give identical results from `check_availability`, `transfer_to_department` and `transfer_with_context` |
| Handlers.AnyCasingTransfersWhenOpen | reference/solution.py:131-152 | in a table of unique lower-case keys, any casing of a department's name is transferred to its number during its hours |
| Receptionist.SalesOpenAtTen | reference/solution.py:16-19 | sales is open at 10:00, and "Sales" is connected to +15551111111 |
| Receptionist.SalesClosedFromSix | reference/solution.py:73-78 | from 18:00 on, sales answers "Sales is open 9:00 to 18:00" |
| Receptionist.ReturnsClosedAtTwenty | reference/solution.py:141-147 | at 20:00 returns gets no connect, and its apology quotes "10:00 to 16:00" |
| Receptionist.DepartmentKeys | reference/solution.py:15-36 | the agent's keys in order are sales, support, billing, returns |
| Receptionist.UnknownNameListsAllKeys | reference/solution.py:132-139 | any other name is answered with those four keys joined by ", " |

## Left out

- The agent framework: `AgentBase`, the prompt sections, the language setup,
  the tool decorator with its parameter schemas, and `agent.run()`. They are
  calls into an SDK whose behaviour is not part of this model.
- The wall clock. `datetime.now().hour` becomes the `hour` parameter.
  `datetime.now().isoformat()` becomes the opaque `now` string.
- Running the transfer and merging global data. The telephony runtime does
  that. The model only states the directive and the patch that are returned.
- The unused `raw_data` parameter of `transfer_with_context`.
- The SDK's result builder is a record here. `update_global_data` fills
  `globalData` and `connect(number, final=True)` fills `connect`.
- The order of the chained builder calls is not kept. In
  `transfer_with_context` the global data is attached before the connect
  directive (reference/solution.py:206-207); the record holds both but not
  which came first.
- Text.Lower: models `str.lower()` on ASCII letters only. Python also
  lower-cases other Unicode letters.
- Text.Title: models `str.title()` on ASCII letters only. Python also
  title-cases other Unicode letters.
- Text.NatToString: renders natural numbers only. The model keeps hours as
  natural numbers, so `str()` of a negative hour is not modelled.
- Handlers.ListMentionsEveryDepartment: states that each listing line occurs
  in the reply. It does not state that nothing else does.
- Handlers.TransferUnknownListsKeys: states the exact reply. Its "exactly
  these keys" half relies on the join of the keys, not on splitting the reply
  back into names.
- The exact English wording of each reply. It is modelled as written, but
  the lemmas only state the prefixes, the quoted reasons and hours, and the
  keys listed.

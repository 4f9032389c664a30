/** The ELM327 engine object: the table of PIDs the connected ECU supports,
    filled in by Connect from the ECU's "supported PIDs" bitmaps, and DoPID,
    which looks a PID up in the PidFunctions table and runs its handler.
    The serial port is a reply oracle: `device(c)` is the byte stream the
    adapter sends back after request `c`. */
module Engine {
  import opened PyStr
  import opened Response
  import opened Registry
  import opened TroubleCodes
  import opened Decoders

  // ---------------------------------------------------------------- constants

  /** The answer of DoPID for a PID that has no handler. */
  const NotImplementedText := "!NOT IMPLEMENTED!"
  /** The answer of a data PID the ECU does not support. */
  const NoDataText := "N/A"
  /** The answer of DoPID when the handler raised. */
  const ErrorText := "!ERROR!"
  /** The answer of a PID whose handler is still a placeholder. */
  const TodoText := ":TODO:"

  /** The entries Connect adds by hand; their keys are not PIDs of mode 01,
      05 or 09, and the '!' marks them as not user selectable. */
  const FixedPids: map<string, string> := map[
    "03" := "! Show stored Diagnostic Trouble Codes",
    "04" := "! Clear Diagnostic Trouble Codes and stored values",
    "07" := "! Show pending Diagnostic Trouble Codes (detected during current or last driving cycle)"]

  // ---------------------------------------------------------------- handlers

  /** The description table a bitmap PID labels its PIDs from. */
  datatype PidTable = Mode01Pids | Mode05Pids | Mode09Pids

  function Descriptions(tables: Tables, table: PidTable): map<string, string>
  {
    match table
    case Mode01Pids => tables.pidsMode01
    case Mode05Pids => tables.pidsMode05
    case Mode09Pids => tables.pidsMode09
  }

  /** What a PidFunctions entry does when DoPID calls it. */
  datatype Handler =
      /** Ask for a "supported PIDs" bitmap, cut `prune` echoed bytes off
          every line and register the PIDs it announces; returns None. */
    | Bitmap(command: string, prune: nat, mode: string, start: string, table: PidTable)
      /** "N/A" unless the PID is supported; otherwise ask for it and decode. */
    | Data(command: string, prune: nat, kind: Kind)
      /** Ask and hand back the normalised reply. */
    | Raw(command: string)
      /** GetTroubleCodeData for service $03 or $07. */
    | TroubleCodeList(command: string)
      /** A handler that only returns ":TODO:". */
    | Placeholder

  const Pid0100 := Bitmap("0100", 2, "01", "00", Mode01Pids)
  const Pid0120 := Bitmap("0120", 2, "01", "20", Mode01Pids)
  const Pid0140 := Bitmap("0140", 2, "01", "40", Mode01Pids)
  const Pid0160 := Bitmap("0160", 2, "01", "60", Mode01Pids)
  const Pid0180 := Bitmap("0180", 2, "01", "80", Mode01Pids)
  const Pid01A0 := Bitmap("01A0", 2, "01", "A0", Mode01Pids)
  const Pid01C0 := Bitmap("01C0", 2, "01", "C0", Mode01Pids)
  const Pid050100 := Bitmap("050100", 3, "05", "00", Mode05Pids)
  const Pid0900 := Bitmap("0900", 3, "09", "00", Mode09Pids)

  /** The dispatch table, in the order the class body fills it in. A PID
      registered twice keeps the later handler, as a repeated key does in a
      Python dict. The registrations are grouped by OBD mode; the groups
      share no key, so joining them in source order loses nothing. */
  const PidFunctions: map<string, Handler> :=
    Mode01Functions + Mode01ExtendedFunctions + TroubleCodeFunctions + Mode09Functions

  /** Mode 01, current data: the PIDs the first bitmap covers. */
  const Mode01Functions: map<string, Handler> := map[
    "0100" := Pid0100,
    "0101" := Data("0101", 2, MonitorStatusKind),
    "0102" := Raw("0102"),
    "0103" := Data("0103", 2, FuelSystem),
    "0104" := Data("0104", 2, Load),
    "0105" := Data("0105", 2, Coolant),
    "0106" := Data("0106", 2, FuelTrim),
    "0107" := Data("0107", 2, FuelTrim),
    "0108" := Data("0108", 2, FuelTrim),
    "0109" := Data("0109", 2, FuelTrim),
    "010A" := Data("010A", 2, FuelPressure),
    "010B" := Data("010B", 2, Number),
    "010C" := Data("010C", 2, Rpm),
    "010D" := Data("010D", 2, Speed),
    "010E" := Data("010E", 2, TimingAdvance),
    "010F" := Data("010F", 2, IntakeAir),
    "0110" := Data("0110", 2, AirFlow),
    "0111" := Data("0111", 2, Throttle),
    "0112" := Data("0112", 2, SecondaryAir),
    "0113" := Data("0113", 2, SensorsPresent),
    "0114" := Data("0114", 2, OxygenSensor),
    "0115" := Data("0115", 2, OxygenSensor),
    "0116" := Data("0116", 2, OxygenSensor),
    "0117" := Data("0117", 2, OxygenSensor),
    "0118" := Data("0118", 2, OxygenSensor),
    "0119" := Data("0119", 2, OxygenSensor),
    "011A" := Data("011A", 2, OxygenSensor),
    "011B" := Data("011B", 2, OxygenSensor),
    "011C" := Data("011C", 2, ObdStandard)]

  /** Mode 01 from PID 20 on: the later bitmaps and the distance PID. */
  const Mode01ExtendedFunctions: map<string, Handler> := map[
    "0120" := Pid0120,
    "0121" := Data("0121", 2, Distance),
    "0140" := Pid0140,
    "0160" := Pid0160,
    "0180" := Pid0180,
    "01A0" := Pid01A0,
    "01C0" := Pid01C0]

  /** Modes 03, 04 and 07 (trouble codes) and the mode 05 bitmap. */
  const TroubleCodeFunctions: map<string, Handler> := map[
    "03" := TroubleCodeList("03"),
    "04" := Raw("04"),
    "050100" := Pid050100,
    "07" := TroubleCodeList("07")]

  /** Mode 09, vehicle information. */
  const Mode09Functions: map<string, Handler> := map[
    "0900" := Pid0900,
    "0901" := Placeholder,
    "0901" := Data("0901", 2, Number),
    "0902" := Data("0902", 3, VehicleText),
    "0903" := Placeholder,
    "0903" := Data("0903", 2, Number),
    "0904" := Data("0904", 3, VehicleText),
    "0905" := Placeholder,
    "0905" := Data("0905", 2, Number),
    "0906" := Data("0906", 3, PrunedText),
    "0907" := Placeholder,
    "0908" := Placeholder,
    "0909" := Placeholder,
    "0907" := Data("0907", 2, Number),
    "0909" := Data("0909", 2, Number),
    "090A" := Data("090A", 3, VehicleText)]

  // ---------------------------------------------------------------- the engine as a state transformer

  /** The part of the engine a request can change: the valid-PID table and
      the requests written to the adapter so far. */
  datatype State = State(pids: map<string, string>, sent: seq<string>)

  /** A handler's result and the state it leaves. */
  datatype Outcome = Outcome(result: Py<Value>, state: State)

  /** The adapter always ends a reply with its prompt. */
  ghost predicate Responsive(device: string -> seq<byte>)
  {
    forall command :: Prompt in device(command)
  }

  function Send(st: State, command: string): State
  {
    State(st.pids, st.sent + [command])
  }

  /** GetResponse: the reply up to the prompt, normalised. */
  function Reply(device: string -> seq<byte>, command: string): Py<string>
    requires Prompt in device(command)
  {
    var raw :- Received(device(command));
    Ok(Normalize(raw))
  }

  /** A bitmap PID: ask, prune, resolve. A PID without a description stops
      the walk with NameError and keeps what was registered before it. */
  function BitmapOf(h: Handler, device: string -> seq<byte>, tables: Tables, st: State): Outcome
    requires h.Bitmap? && Responsive(device)
  {
    var st' := Send(st, h.command);
    match Reply(device, h.command)
    case Raise(e) => Outcome(Raise(e), st')
    case Ok(response) =>
      match ResolvePids(st.pids, h.mode, Pruned(response, h.prune), h.start, Descriptions(tables, h.table))
      case Raise(e) => Outcome(Raise(e), st')
      case Ok(res) => Outcome(if res.complete then Ok(NoneValue) else Raise(NameError), State(res.pids, st'.sent))
  }

  /** GetTroubleCodeData on a reply: prune one byte per line, cut into codes,
      describe every code. */
  function TroubleCodeTable(reply: Py<string>, tables: Tables): Py<Value>
  {
    var response :- reply;
    var codes :- TroubleCodesOf(Pruned(response, 1), tables.troubleCodePrefix);
    var described :- Describe(codes, tables.troubleCodeDescriptions);
    Ok(Codes(described))
  }

  /** What running handler `h` does. */
  function RunOf(h: Handler, device: string -> seq<byte>, tables: Tables, st: State): Outcome
    requires Responsive(device)
  {
    match h
    case Bitmap(_, _, _, _, _) => BitmapOf(h, device, tables, st)
    case Data(command, prune, kind) =>
      if command !in st.pids then Outcome(Ok(Text(NoDataText)), st)
      else
        (match Reply(device, command)
         case Raise(e) => Outcome(Raise(e), Send(st, command))
         case Ok(response) => Outcome(Decode(kind, Pruned(response, prune), tables), Send(st, command)))
    case Raw(command) =>
      (match Reply(device, command)
       case Raise(e) => Outcome(Raise(e), Send(st, command))
       case Ok(response) => Outcome(Ok(Text(response)), Send(st, command)))
    case TroubleCodeList(command) => Outcome(TroubleCodeTable(Reply(device, command), tables), Send(st, command))
    case Placeholder => Outcome(Ok(Text(TodoText)), st)
  }

  /** What DoPID answers, and the state it leaves. */
  datatype Answer = Answer(value: Value, state: State)

  /** DoPID: no handler gives "!NOT IMPLEMENTED!", a handler that raises
      gives "!ERROR!", any other handler its own result. */
  function DoPIDOf(pid: string, device: string -> seq<byte>, tables: Tables, st: State): Answer
    requires Responsive(device)
  {
    if pid in PidFunctions then
      var o := RunOf(PidFunctions[pid], device, tables, st);
      Answer(if o.result.Raise? then Text(ErrorText) else o.result.value, o.state)
    else Answer(Text(NotImplementedText), st)
  }

  /** One step of Connect after the first request: a resolver that always
      runs, or one that runs only if its own PID is then registered. */
  datatype ConnectStep = Always(h: Handler) | IfSupported(key: string, h: Handler)

  /** The resolvers Connect runs after adding the fixed entries, in order. */
  const StepCount := 9

  function ConnectStepAt(i: nat): (step: ConnectStep)
    requires i < StepCount
    ensures step.h.Bitmap? && |step.h.mode| == 2
  {
    if i == 0 then Always(Pid0100)
    else if i == 1 then IfSupported("0120", Pid0120)
    else if i == 2 then IfSupported("0140", Pid0140)
    else if i == 3 then IfSupported("0160", Pid0160)
    else if i == 4 then IfSupported("0180", Pid0180)
    else if i == 5 then IfSupported("01A0", Pid01A0)
    else if i == 6 then IfSupported("01C0", Pid01C0)
    else if i == 7 then Always(Pid050100)
    else Always(Pid0900)
  }

  function StepOf(step: ConnectStep, device: string -> seq<byte>, tables: Tables, st: State): Outcome
    requires Responsive(device) && step.h.Bitmap?
  {
    if step.IfSupported? && step.key !in st.pids then Outcome(Ok(NoneValue), st)
    else BitmapOf(step.h, device, tables, st)
  }

  /** The steps from `i` on, stopping at the first that raises. */
  function StepsFrom(i: nat, device: string -> seq<byte>, tables: Tables, st: State): Outcome
    requires Responsive(device)
    decreases StepCount - i
  {
    if i >= StepCount then Outcome(Ok(NoneValue), st)
    else
      var o := StepOf(ConnectStepAt(i), device, tables, st);
      if o.result.Raise? then o else StepsFrom(i + 1, device, tables, o.state)
  }

  /** Running step `i` either stops the remaining steps with its exception
      or hands its state on to step `i + 1`. */
  lemma Advance(i: nat, step: ConnectStep, device: string -> seq<byte>, tables: Tables, st: State, o: Outcome)
    requires Responsive(device) && i < StepCount && ConnectStepAt(i) == step
    requires o == StepOf(step, device, tables, st)
    ensures StepsFrom(i, device, tables, st) == if o.result.Raise? then o else StepsFrom(i + 1, device, tables, o.state)
  {
  }

  /** Connect's result (or the exception it lets through) and the state it leaves. */
  datatype Connection = Connection(result: Py<bool>, state: State)

  /** Connect: ask for PID 0100; an "UNABLE TO CONNECT" reply gives False,
      anything else adds the fixed entries and runs the resolvers. */
  function ConnectOf(device: string -> seq<byte>, tables: Tables, st: State): Connection
    requires Responsive(device)
  {
    var st' := Send(st, "0100");
    match Reply(device, "0100")
    case Raise(e) => Connection(Raise(e), st')
    case Ok(response) =>
      if Contains(response, "UNABLE TO CONNECT") then Connection(Ok(false), st')
      else
        var o := StepsFrom(0, device, tables, State(st'.pids + FixedPids, st'.sent));
        Connection(if o.result.Raise? then Raise(o.result.error) else Ok(true), o.state)
  }

  // ---------------------------------------------------------------- the dispatch table

  /** What each entry of the table promises: a data handler asks for the
      PID it is registered under, and a bitmap handler registers under a
      two-digit mode. */
  predicate Serves(pid: string, h: Handler)
  {
    && (h.Data? ==> h.command == pid)
    && (h.Bitmap? ==> |h.mode| == 2)
  }

  lemma Mode01Serves(pid: string)
    requires pid in Mode01Functions
    ensures Serves(pid, Mode01Functions[pid])
  {
    if pid in {"0100", "0101", "0102", "0103", "0104", "0105", "0106", "0107",
               "0108", "0109", "010A", "010B", "010C", "010D"} {
      Mode01LowServes(pid);
    } else {
      Mode01HighServes(pid);
    }
  }

  lemma Mode01LowServes(pid: string)
    requires pid in Mode01Functions
    requires pid in {"0100", "0101", "0102", "0103", "0104", "0105", "0106", "0107",
                     "0108", "0109", "010A", "010B", "010C", "010D"}
    ensures Serves(pid, Mode01Functions[pid])
  {
  }

  lemma Mode01HighServes(pid: string)
    requires pid in Mode01Functions
    requires pid !in {"0100", "0101", "0102", "0103", "0104", "0105", "0106", "0107",
                      "0108", "0109", "010A", "010B", "010C", "010D"}
    ensures Serves(pid, Mode01Functions[pid])
  {
    assert pid in {"010E", "010F", "0110", "0111", "0112", "0113", "0114", "0115",
                   "0116", "0117", "0118", "0119", "011A", "011B", "011C"};
  }

  lemma Mode01ExtendedServes(pid: string)
    requires pid in Mode01ExtendedFunctions
    ensures Serves(pid, Mode01ExtendedFunctions[pid])
  {
    assert pid in {"0120", "0121", "0140", "0160", "0180", "01A0", "01C0"};
  }

  lemma TroubleCodeServes(pid: string)
    requires pid in TroubleCodeFunctions
    ensures Serves(pid, TroubleCodeFunctions[pid])
  {
    assert pid in {"03", "04", "050100", "07"};
  }

  lemma Mode09Serves(pid: string)
    requires pid in Mode09Functions
    ensures Serves(pid, Mode09Functions[pid])
  {
    assert pid in {"0900", "0901", "0902", "0903", "0904", "0905", "0906", "0907",
                  "0908", "0909", "090A"};
  }

  /** Every handler of the table serves the PID it is registered under. */
  lemma PidFunctionsShape(pid: string)
    requires pid in PidFunctions
    ensures Serves(pid, PidFunctions[pid])
  {
    if pid in Mode09Functions {
      Mode09Serves(pid);
    } else if pid in TroubleCodeFunctions {
      TroubleCodeServes(pid);
    } else if pid in Mode01ExtendedFunctions {
      Mode01ExtendedServes(pid);
    } else {
      Mode01Serves(pid);
    }
  }

  /** A PID registered twice keeps its later handler: the mode 09 message
      counts are real decoders, and only 0908 is left a placeholder. */
  lemma LaterRegistrationWins()
    ensures PidFunctions["0901"] == Data("0901", 2, Number)
    ensures PidFunctions["0903"] == Data("0903", 2, Number)
    ensures PidFunctions["0905"] == Data("0905", 2, Number)
    ensures PidFunctions["0907"] == Data("0907", 2, Number)
    ensures PidFunctions["0909"] == Data("0909", 2, Number)
    ensures PidFunctions["0908"] == Placeholder
  {
    Mode09Later();
  }

  lemma Mode09Later()
    ensures "0901" in Mode09Functions && Mode09Functions["0901"] == Data("0901", 2, Number)
    ensures "0903" in Mode09Functions && Mode09Functions["0903"] == Data("0903", 2, Number)
    ensures "0905" in Mode09Functions && Mode09Functions["0905"] == Data("0905", 2, Number)
    ensures "0907" in Mode09Functions && Mode09Functions["0907"] == Data("0907", 2, Number)
    ensures "0909" in Mode09Functions && Mode09Functions["0909"] == Data("0909", 2, Number)
    ensures "0908" in Mode09Functions && Mode09Functions["0908"] == Placeholder
  {
  }

  /** Where a key of each group lands in the joined table. */
  lemma Mode01Handler(pid: string)
    requires pid in Mode01Functions
    requires pid !in Mode01ExtendedFunctions && pid !in TroubleCodeFunctions && pid !in Mode09Functions
    ensures pid in PidFunctions && PidFunctions[pid] == Mode01Functions[pid]
  {
  }

  lemma TroubleCodeHandler(pid: string)
    requires pid in TroubleCodeFunctions && pid !in Mode09Functions
    ensures pid in PidFunctions && PidFunctions[pid] == TroubleCodeFunctions[pid]
  {
  }

  lemma Mode09Handler(pid: string)
    requires pid in Mode09Functions
    ensures pid in PidFunctions && PidFunctions[pid] == Mode09Functions[pid]
  {
  }

  /** Entries of the mode 01 group that the lemmas below use. */
  lemma Mode01Has(pid: string, h: Handler)
    requires (pid, h) in {("0103", Data("0103", 2, FuelSystem)), ("0105", Data("0105", 2, Coolant)),
                          ("0112", Data("0112", 2, SecondaryAir)), ("011C", Data("011C", 2, ObdStandard))}
    ensures pid in Mode01Functions && Mode01Functions[pid] == h
  {
  }

  /** PIDs 0103, 0105, 0112 and 011C are registered in mode 01 only. */
  lemma OnlyInMode01(pid: string)
    requires pid in {"0103", "0105", "0112", "011C"}
    ensures pid !in Mode01ExtendedFunctions && pid !in TroubleCodeFunctions && pid !in Mode09Functions
  {
  }

  /** The handlers of PIDs 0103, 0105, 0112 and 011C. */
  lemma FuelSystemHandler()
    ensures "0103" in PidFunctions && PidFunctions["0103"] == Data("0103", 2, FuelSystem)
  {
    Mode01Has("0103", Data("0103", 2, FuelSystem));
    OnlyInMode01("0103");
    Mode01Handler("0103");
  }

  lemma CoolantHandler()
    ensures "0105" in PidFunctions && PidFunctions["0105"] == Data("0105", 2, Coolant)
  {
    Mode01Has("0105", Data("0105", 2, Coolant));
    OnlyInMode01("0105");
    Mode01Handler("0105");
  }

  lemma LookupHandlers()
    ensures "0112" in PidFunctions && PidFunctions["0112"] == Data("0112", 2, SecondaryAir)
    ensures "011C" in PidFunctions && PidFunctions["011C"] == Data("011C", 2, ObdStandard)
  {
    Mode01Has("0112", Data("0112", 2, SecondaryAir));
    OnlyInMode01("0112");
    Mode01Handler("0112");
    Mode01Has("011C", Data("011C", 2, ObdStandard));
    OnlyInMode01("011C");
    Mode01Handler("011C");
  }

  /** The two trouble-code requests are registered outside mode 09. */
  lemma TroubleCodeHas(pid: string)
    requires pid == "03" || pid == "07"
    ensures pid in TroubleCodeFunctions && TroubleCodeFunctions[pid] == TroubleCodeList(pid)
    ensures pid !in Mode09Functions
  {
  }

  /** The handlers of the two trouble-code requests. */
  lemma TroubleCodeHandlers()
    ensures "03" in PidFunctions && PidFunctions["03"] == TroubleCodeList("03")
    ensures "07" in PidFunctions && PidFunctions["07"] == TroubleCodeList("07")
  {
    TroubleCodeHas("03");
    TroubleCodeHandler("03");
    TroubleCodeHas("07");
    TroubleCodeHandler("07");
  }

  lemma Mode09Has()
    ensures "0902" in Mode09Functions && Mode09Functions["0902"] == Data("0902", 3, VehicleText)
    ensures "0904" in Mode09Functions && Mode09Functions["0904"] == Data("0904", 3, VehicleText)
    ensures "090A" in Mode09Functions && Mode09Functions["090A"] == Data("090A", 3, VehicleText)
  {
  }

  /** The handlers of the VIN, calibration ID and ECU name. */
  lemma VehicleTextHandlers()
    ensures "0902" in PidFunctions && PidFunctions["0902"] == Data("0902", 3, VehicleText)
    ensures "0904" in PidFunctions && PidFunctions["0904"] == Data("0904", 3, VehicleText)
    ensures "090A" in PidFunctions && PidFunctions["090A"] == Data("090A", 3, VehicleText)
  {
    Mode09Has();
    Mode09Handler("0902");
    Mode09Handler("0904");
    Mode09Handler("090A");
  }

  // ---------------------------------------------------------------- DoPID

  /** DoPID answers "!NOT IMPLEMENTED!" for a PID without a handler and
      changes nothing. */
  lemma DoPIDNotImplemented(pid: string, device: string -> seq<byte>, tables: Tables, st: State)
    requires Responsive(device) && pid !in PidFunctions
    ensures DoPIDOf(pid, device, tables, st) == Answer(Text(NotImplementedText), st)
  {
  }

  /** A data PID the ECU did not announce answers "N/A" and sends nothing. */
  lemma UnsupportedPidNoData(pid: string, device: string -> seq<byte>, tables: Tables, st: State)
    requires Responsive(device) && pid in PidFunctions && PidFunctions[pid].Data? && pid !in st.pids
    ensures DoPIDOf(pid, device, tables, st) == Answer(Text(NoDataText), st)
  {
    PidFunctionsShape(pid);
  }

  /** A supported data PID sends exactly its own request and answers what
      its decoder makes of the pruned reply, or "!ERROR!" if it raises. */
  lemma DataPidAnswer(pid: string, device: string -> seq<byte>, tables: Tables, st: State, response: string)
    requires Responsive(device) && pid in PidFunctions && PidFunctions[pid].Data? && pid in st.pids
    requires Reply(device, pid) == Ok(response)
    ensures var h := PidFunctions[pid];
            var d := Decode(h.kind, Pruned(response, h.prune), tables);
            DoPIDOf(pid, device, tables, st) == Answer(if d.Raise? then Text(ErrorText) else d.value, Send(st, pid))
  {
    PidFunctionsShape(pid);
  }

  /** A supported data PID whose decoder raises answers "!ERROR!". */
  lemma DataRaises(pid: string, prune: nat, kind: Kind, device: string -> seq<byte>, tables: Tables, st: State, response: string)
    requires Responsive(device) && pid in PidFunctions && PidFunctions[pid] == Data(pid, prune, kind) && pid in st.pids
    requires Reply(device, pid) == Ok(response) && Decode(kind, Pruned(response, prune), tables).Raise?
    ensures DoPIDOf(pid, device, tables, st) == Answer(Text(ErrorText), Send(st, pid))
  {
    DataPidAnswer(pid, device, tables, st, response);
  }

  /** A supported data PID whose decoder succeeds answers the decoded value. */
  lemma DataReads(pid: string, prune: nat, kind: Kind, device: string -> seq<byte>, tables: Tables, st: State, response: string, v: Value)
    requires Responsive(device) && pid in PidFunctions && PidFunctions[pid] == Data(pid, prune, kind) && pid in st.pids
    requires Reply(device, pid) == Ok(response) && Decode(kind, Pruned(response, prune), tables) == Ok(v)
    ensures DoPIDOf(pid, device, tables, st) == Answer(v, Send(st, pid))
  {
    DataPidAnswer(pid, device, tables, st, response);
  }

  /** A bitmap request writes one request, never drops a valid PID, and
      leaves every key shorter than a registered one as it was. */
  lemma BitmapKeeps(h: Handler, device: string -> seq<byte>, tables: Tables, st: State)
    requires h.Bitmap? && Responsive(device)
    ensures var o := BitmapOf(h, device, tables, st);
            && st.pids.Keys <= o.state.pids.Keys
            && o.state.sent == st.sent + [h.command]
            && forall k :: k in st.pids && |k| < |h.mode| + 2 ==> k in o.state.pids && o.state.pids[k] == st.pids[k]
  {
    var reply := Reply(device, h.command);
    if reply.Ok? {
      var data := Pruned(reply.value, h.prune);
      if ResolvePids(st.pids, h.mode, data, h.start, Descriptions(tables, h.table)).Ok? {
        ResolveKeepsShortKeys(st.pids, h.mode, data, h.start, Descriptions(tables, h.table));
      }
    }
  }

  /** Running any handler never drops a valid PID and writes at most one
      request. */
  lemma RunKeeps(h: Handler, device: string -> seq<byte>, tables: Tables, st: State)
    requires Responsive(device)
    ensures var o := RunOf(h, device, tables, st);
            && st.pids.Keys <= o.state.pids.Keys
            && st.sent <= o.state.sent && |o.state.sent| <= |st.sent| + 1
  {
    if h.Bitmap? {
      BitmapKeeps(h, device, tables, st);
    }
  }

  /** DoPID never drops a valid PID and writes at most one request. */
  lemma DoPIDKeepsPids(pid: string, device: string -> seq<byte>, tables: Tables, st: State)
    requires Responsive(device)
    ensures var a := DoPIDOf(pid, device, tables, st);
            && st.pids.Keys <= a.state.pids.Keys
            && st.sent <= a.state.sent && |a.state.sent| <= |st.sent| + 1
  {
    if pid in PidFunctions {
      RunKeeps(PidFunctions[pid], device, tables, st);
    }
  }

  /** A reply missing from the secondary-air or OBD-standard table reaches
      the undefined STRING_INVALID name and ends as "!ERROR!". */
  lemma LookupMissIsError(pid: string, device: string -> seq<byte>, tables: Tables, st: State, response: string)
    requires Responsive(device) && (pid == "0112" || pid == "011C") && pid in st.pids
    requires Reply(device, pid) == Ok(response)
    requires Pruned(response, 2) !in (if pid == "0112" then tables.secondaryAirStatus else tables.obdStandards)
    ensures DoPIDOf(pid, device, tables, st) == Answer(Text(ErrorText), Send(st, pid))
  {
    LookupHandlers();
    if pid == "0112" {
      LookupMissRaises(SecondaryAir, Pruned(response, 2), tables);
      DataRaises(pid, 2, SecondaryAir, device, tables, st, response);
    } else {
      LookupMissRaises(ObdStandard, Pruned(response, 2), tables);
      DataRaises(pid, 2, ObdStandard, device, tables, st, response);
    }
  }

  /** So does a fuel system status missing from its table. */
  lemma FuelSystemMissIsError(device: string -> seq<byte>, tables: Tables, st: State, response: string)
    requires Responsive(device) && "0103" in st.pids
    requires Reply(device, "0103") == Ok(response)
    requires var data := Pruned(response, 2);
             Slice(data, 0, 2) !in tables.fuelSystemStatus || Slice(data, 2, 4) !in tables.fuelSystemStatus
    ensures DoPIDOf("0103", device, tables, st) == Answer(Text(ErrorText), Send(st, "0103"))
  {
    FuelSystemHandler();
    FuelSystemMissRaises(Pruned(response, 2), tables);
    DataRaises("0103", 2, FuelSystem, device, tables, st, response);
  }

  /** And so does a trouble code without a description (STRING_NO_DESCRIPTION). */
  lemma UndescribedCodeIsError(command: string, device: string -> seq<byte>, tables: Tables, st: State, response: string, code: string)
    requires Responsive(device) && (command == "03" || command == "07")
    requires Reply(device, command) == Ok(response)
    requires var codes := TroubleCodesOf(Pruned(response, 1), tables.troubleCodePrefix);
             codes.Ok? && code in codes.value && code !in tables.troubleCodeDescriptions
    ensures DoPIDOf(command, device, tables, st) == Answer(Text(ErrorText), Send(st, command))
  {
    TroubleCodeHandlers();
    var codes := TroubleCodesOf(Pruned(response, 1), tables.troubleCodePrefix);
    UndescribedRaises(codes.value, tables.troubleCodeDescriptions, code);
  }

  /** The reply half of CoolantReading: pruning the echoed request off the
      reply leaves the encoded temperature. */
  lemma CoolantReply(device: string -> seq<byte>, echo: string, celsius: int)
    requires Responsive(device)
    requires AllHex(echo) && |echo| == 4 && -40 <= celsius < 216
    requires Received(device("0105")) == Ok(echo + Encode([(celsius + 40) as byte]) + "\r\r")
    ensures Reply(device, "0105").Ok?
    ensures Pruned(Reply(device, "0105").value, 2) == Encode([(celsius + 40) as byte])
  {
    var payload := Encode([(celsius + 40) as byte]);
    assert AllHex(echo + payload);
    PrunedReply(echo, payload, 2);
  }

  /** End to end: a coolant reply after the echoed request reads back as the
      temperature the ECU encoded. */
  lemma CoolantReading(device: string -> seq<byte>, tables: Tables, st: State, echo: string, celsius: int)
    requires Responsive(device) && "0105" in st.pids
    requires AllHex(echo) && |echo| == 4 && -40 <= celsius < 216
    requires Received(device("0105")) == Ok(echo + Encode([(celsius + 40) as byte]) + "\r\r")
    ensures DoPIDOf("0105", device, tables, st) == Answer(Int(celsius), Send(st, "0105"))
  {
    CoolantHandler();
    CoolantReply(device, echo, celsius);
    CoolantDecoded(celsius, tables);
    DataReads("0105", 2, Coolant, device, tables, st, Reply(device, "0105").value, Int(celsius));
  }

  /** The reply half of VehicleTextReading. */
  lemma VehicleTextReply(pid: string, device: string -> seq<byte>, echo: string, bs: seq<byte>)
    requires Responsive(device)
    requires AllHex(echo) && |echo| == 6 && forall k :: 0 <= k < |bs| ==> bs[k] < 128
    requires Received(device(pid)) == Ok(echo + Encode(bs) + "\r\r")
    ensures Reply(device, pid).Ok?
    ensures Pruned(Reply(device, pid).value, 3) == Encode(bs)
  {
    var payload := Encode(bs);
    assert AllHex(echo + payload);
    PrunedReply(echo, payload, 3);
  }

  /** End to end: the VIN, calibration ID and ECU name read back as the
      ASCII text the ECU sent, its zero padding as spaces. */
  lemma VehicleTextReading(pid: string, device: string -> seq<byte>, tables: Tables, st: State, echo: string, bs: seq<byte>)
    requires Responsive(device) && (pid == "0902" || pid == "0904" || pid == "090A") && pid in st.pids
    requires AllHex(echo) && |echo| == 6 && forall k :: 0 <= k < |bs| ==> bs[k] < 128
    requires Received(device(pid)) == Ok(echo + Encode(bs) + "\r\r")
    ensures DoPIDOf(pid, device, tables, st) == Answer(Text(Spaced(bs)), Send(st, pid))
  {
    VehicleTextHandlers();
    VehicleTextReply(pid, device, echo, bs);
    TextDecoded(bs, tables);
    DataReads(pid, 3, VehicleText, device, tables, st, Reply(device, pid).value, Text(Spaced(bs)));
  }

  // ---------------------------------------------------------------- Connect

  /** `after` has key `k` with the value `before` has, if `before` has it. */
  predicate Holds(before: State, after: State, k: string)
  {
    k in before.pids ==> k in after.pids && after.pids[k] == before.pids[k]
  }

  /** `after` keeps every valid PID of `before`, extends its request log,
      and leaves the three fixed entries as they were. */
  predicate Keeps(before: State, after: State)
  {
    && before.pids.Keys <= after.pids.Keys
    && before.sent <= after.sent
    && Holds(before, after, "03") && Holds(before, after, "04") && Holds(before, after, "07")
  }

  /** Keeps carries across one step followed by the rest of the sequence,
      or across a step that stops it. */
  lemma ChainKeeps(st: State, o: Outcome, rest: Outcome, last: Outcome)
    requires Keeps(st, o.state)
    requires last == if o.result.Raise? then o else rest
    requires o.result.Ok? ==> Keeps(o.state, rest.state)
    ensures Keeps(st, last.state)
  {
  }

  /** One step of the connection sequence keeps the state. */
  lemma StepKeeps(i: nat, device: string -> seq<byte>, tables: Tables, st: State)
    requires Responsive(device) && i < StepCount
    ensures Keeps(st, StepOf(ConnectStepAt(i), device, tables, st).state)
  {
    var step := ConnectStepAt(i);
    if !(step.IfSupported? && step.key !in st.pids) {
      BitmapKeeps(step.h, device, tables, st);
    }
  }

  /** The resolvers only ever add PIDs and requests, and keep the fixed
      two-character entries. */
  lemma {:induction false} StepsFromKeeps(i: nat, device: string -> seq<byte>, tables: Tables, st: State)
    requires Responsive(device)
    ensures Keeps(st, StepsFrom(i, device, tables, st).state)
    decreases StepCount - i
  {
    if i < StepCount {
      var o := StepOf(ConnectStepAt(i), device, tables, st);
      Advance(i, ConnectStepAt(i), device, tables, st, o);
      StepKeeps(i, device, tables, st);
      if o.result.Ok? {
        StepsFromKeeps(i + 1, device, tables, o.state);
      }
      ChainKeeps(st, o, StepsFrom(i + 1, device, tables, o.state), StepsFrom(i, device, tables, st));
    }
  }

  /** A resolver after the first runs, and sends its request, exactly when
      the key guarding it is a valid PID at that point. */
  lemma ResolverRunsIfRegistered(i: nat, device: string -> seq<byte>, tables: Tables, st: State)
    requires Responsive(device) && 1 <= i <= 6
    ensures var step := ConnectStepAt(i);
            && step.IfSupported?
            && StepOf(step, device, tables, st).state.sent
               == if step.key in st.pids then st.sent + [step.h.command] else st.sent
  {
  }

  /** The key guarding each further resolver is the top PID the previous
      resolver's bitmap covers. */
  lemma GuardIsPreviousTop(i: nat)
    requires 1 <= i <= 6
    ensures var prev := ConnectStepAt(i - 1).h;
            && ParseHex(prev.start).Ok?
            && ConnectStepAt(i).key == prev.mode + Hex2(HexValue(prev.start) + 32)
  {
    var prev := ConnectStepAt(i - 1).h;
    if i == 1 {
      assert HexValue(prev.start) + 32 == 0x20;
    } else if i == 2 {
      assert HexValue(prev.start) + 32 == 0x40;
    } else if i == 3 {
      assert HexValue(prev.start) + 32 == 0x60;
    } else if i == 4 {
      assert HexValue(prev.start) + 32 == 0x80;
    } else if i == 5 {
      assert HexValue(prev.start) + 32 == 0xA0;
    } else {
      assert HexValue(prev.start) + 32 == 0xC0;
    }
  }

  /** After a four-byte bitmap has been resolved without error, the key
      guarding the next resolver is valid exactly when the bitmap's last bit
      is set, provided it was not valid before. */
  lemma BitmapRegistersNext(i: nat, device: string -> seq<byte>, tables: Tables, st: State)
    requires Responsive(device) && 1 <= i <= 6
    requires var reply := Reply(device, ConnectStepAt(i - 1).h.command);
             reply.Ok? && |Pruned(reply.value, 2)| == 8 && AllHex(Pruned(reply.value, 2))
    requires ConnectStepAt(i).key !in st.pids
    requires BitmapOf(ConnectStepAt(i - 1).h, device, tables, st).result.Ok?
    ensures var data := Pruned(Reply(device, ConnectStepAt(i - 1).h.command).value, 2);
            ConnectStepAt(i).key in BitmapOf(ConnectStepAt(i - 1).h, device, tables, st).state.pids
            <==> HexValue(data) % 2 == 1
  {
    var prev := ConnectStepAt(i - 1).h;
    var data := Pruned(Reply(device, prev.command).value, 2);
    var desc := Descriptions(tables, prev.table);
    GuardIsPreviousTop(i);
    ResolveRegistersAnnounced(st.pids, prev.mode, data, prev.start, desc);
    ResolveNextRange(st.pids, prev.mode, data, prev.start, desc);
  }

  /** So the next resolver runs, and sends its request, exactly when the
      last bit of the previous bitmap is set. */
  lemma NextResolverFollowsBit(i: nat, device: string -> seq<byte>, tables: Tables, st: State)
    requires Responsive(device) && 1 <= i <= 6
    requires var reply := Reply(device, ConnectStepAt(i - 1).h.command);
             reply.Ok? && |Pruned(reply.value, 2)| == 8 && AllHex(Pruned(reply.value, 2))
    requires ConnectStepAt(i).key !in st.pids
    requires BitmapOf(ConnectStepAt(i - 1).h, device, tables, st).result.Ok?
    ensures var o := BitmapOf(ConnectStepAt(i - 1).h, device, tables, st);
            var data := Pruned(Reply(device, ConnectStepAt(i - 1).h.command).value, 2);
            StepOf(ConnectStepAt(i), device, tables, o.state).state.sent
            == o.state.sent + if HexValue(data) % 2 == 1 then [ConnectStepAt(i).h.command] else []
  {
    BitmapRegistersNext(i, device, tables, st);
    ResolverRunsIfRegistered(i, device, tables, BitmapOf(ConnectStepAt(i - 1).h, device, tables, st).state);
  }

  /** Once past the mode 01 resolvers, the mode 05 and mode 09 bitmaps are
      always requested: a connection that succeeds has sent both. */
  lemma {:induction false} AlwaysStepsRun(i: nat, device: string -> seq<byte>, tables: Tables, st: State)
    requires Responsive(device) && i <= 8
    ensures var o := StepsFrom(i, device, tables, st);
            o.result.Ok? ==> "0900" in o.state.sent && (i <= 7 ==> "050100" in o.state.sent)
    decreases StepCount - i
  {
    var o := StepOf(ConnectStepAt(i), device, tables, st);
    Advance(i, ConnectStepAt(i), device, tables, st, o);
    if o.result.Ok? {
      if i < 8 {
        AlwaysStepsRun(i + 1, device, tables, o.state);
      }
      if i == 7 {
        StepsFromKeeps(8, device, tables, o.state);
        assert o.state.sent[|o.state.sent| - 1] == "050100";
        assert StepsFrom(8, device, tables, o.state).state.sent[|o.state.sent| - 1] == "050100";
      }
      if i == 8 {
        assert o.state.sent[|o.state.sent| - 1] == "0900";
      }
    }
  }

  /** Connect answers False exactly on an "UNABLE TO CONNECT" reply, and then
      has only sent its test request. */
  lemma ConnectRefused(device: string -> seq<byte>, tables: Tables, st: State)
    requires Responsive(device)
    ensures var c := ConnectOf(device, tables, st);
            && (c.result == Ok(false) <==> Reply(device, "0100").Ok? && Contains(Reply(device, "0100").value, "UNABLE TO CONNECT"))
            && (c.result == Ok(false) ==> c.state == Send(st, "0100"))
  {
  }

  /** Connect never drops a valid PID, and once connected the table holds
      the three fixed entries. */
  lemma ConnectKeepsPids(device: string -> seq<byte>, tables: Tables, st: State)
    requires Responsive(device)
    ensures var c := ConnectOf(device, tables, st);
            && st.pids.Keys <= c.state.pids.Keys
            && st.sent + ["0100"] <= c.state.sent
            && (c.result == Ok(true) ==> forall k :: k in FixedPids ==> k in c.state.pids && c.state.pids[k] == FixedPids[k])
  {
    var reply := Reply(device, "0100");
    if reply.Ok? && !Contains(reply.value, "UNABLE TO CONNECT") {
      var st' := State(st.pids + FixedPids, st.sent + ["0100"]);
      StepsFromKeeps(0, device, tables, st');
    }
  }

  // ---------------------------------------------------------------- the engine object

  class Elm327 {
    const device: string -> seq<byte>
    const tables: Tables
    var validPids: map<string, string>
    var sent: seq<string>

    function Snapshot(): State
      reads this
    {
      State(validPids, sent)
    }

    constructor (device: string -> seq<byte>, tables: Tables)
      ensures this.device == device && this.tables == tables
      ensures validPids == map[] && sent == []
    {
      this.device := device;
      this.tables := tables;
      validPids := map[];
      sent := [];
    }

    /** GetResponse: write the request, read up to the prompt, normalise. */
    method GetResponse(command: string) returns (r: Py<string>)
      requires Responsive(device)
      modifies this`sent
      ensures sent == old(sent) + [command]
      ensures r == Reply(device, command)
    {
      sent := sent + [command];
      var raw := ReadUntilPrompt(device(command));
      if raw.Raise? {
        return Raise(raw.error);
      }
      r := Ok(Normalize(raw.value));
    }

    /** ResolvePidData: walk the bitmap from its last bit up while the PID
        counter counts down, registering every PID whose bit is set. */
    method ResolvePidData(mode: string, data: string, start: string, desc: map<string, string>) returns (r: Py<Value>)
      modifies this`validPids
      ensures var res := ResolvePids(old(validPids), mode, data, start, desc);
              if res.Raise? then r == Raise(res.error) && validPids == old(validPids)
              else validPids == res.value.pids && r == if res.value.complete then Ok(NoneValue) else Raise(NameError)
    {
      var startValue: nat :- ParseHex(start);
      var pidValue: nat :- ParseHex(data);
      var count: nat := startValue + 4 * |data|;
      HexValueBound(data);
      Pow2Monotone(4 * |data|, count);
      ghost var walk := Walk(validPids, mode, pidValue, count, desc);
      while pidValue > 0
        invariant pidValue < Pow2(count)
        invariant Walk(validPids, mode, pidValue, count, desc) == walk
        decreases pidValue
      {
        if pidValue % 2 > 0 {
          var index := Hex2(count);
          if index !in desc {
            return Raise(NameError);
          }
          validPids := validPids[mode + index := desc[index]];
        }
        assert count > 0;
        pidValue := pidValue / 2;
        count := count - 1;
      }
      r := Ok(NoneValue);
    }

    /** PID0100, PID0120 ... PID01C0, PID050100 and PID0900. */
    method RunBitmap(h: Handler) returns (r: Py<Value>)
      requires h.Bitmap? && Responsive(device)
      modifies this
      ensures Outcome(r, Snapshot()) == StepOf(Always(h), device, tables, old(Snapshot()))
    {
      var response :- GetResponse(h.command);
      var data := PruneData(response, h.prune);
      r := ResolvePidData(h.mode, data, h.start, Descriptions(tables, h.table));
    }

    /** A data PID: "N/A" without a request unless the PID is supported. */
    method RunData(command: string, prune: nat, kind: Kind) returns (r: Py<Value>)
      requires Responsive(device)
      modifies this`sent
      ensures Outcome(r, Snapshot()) == RunOf(Data(command, prune, kind), device, tables, old(Snapshot()))
    {
      if command !in validPids {
        return Ok(Text(NoDataText));
      }
      var response :- GetResponse(command);
      var data := PruneData(response, prune);
      if kind.MonitorStatusKind? {
        r := MonitorStatus(data);
      } else {
        r := Decode(kind, data, tables);
      }
    }

    /** GetTroubleCodeData: the codes of a service $03 or $07 reply with
        their descriptions. */
    method GetTroubleCodeData(command: string) returns (r: Py<Value>)
      requires Responsive(device)
      modifies this`sent
      ensures Outcome(r, Snapshot()) == RunOf(TroubleCodeList(command), device, tables, old(Snapshot()))
    {
      var response :- GetResponse(command);
      var data := PruneData(response, 1);
      var codes :- DataToTroubleCodes(data, tables.troubleCodePrefix);
      var described :- DescribeTroubleCodes(codes, tables.troubleCodeDescriptions);
      r := Ok(Codes(described));
    }

    /** Call a PidFunctions entry. */
    method Run(h: Handler) returns (r: Py<Value>)
      requires Responsive(device)
      modifies this
      ensures Outcome(r, Snapshot()) == RunOf(h, device, tables, old(Snapshot()))
    {
      match h
      case Bitmap(_, _, _, _, _) =>
        r := RunBitmap(h);
      case Data(command, prune, kind) =>
        r := RunData(command, prune, kind);
      case Raw(command) =>
        var response :- GetResponse(command);
        r := Ok(Text(response));
      case TroubleCodeList(command) =>
        r := GetTroubleCodeData(command);
      case Placeholder =>
        r := Ok(Text(TodoText));
    }

    /** DoPID: look the PID up and run its handler; an exception becomes "!ERROR!". */
    method DoPID(pid: string) returns (v: Value)
      requires Responsive(device)
      modifies this
      ensures Answer(v, Snapshot()) == DoPIDOf(pid, device, tables, old(Snapshot()))
    {
      if pid in PidFunctions {
        var r := Run(PidFunctions[pid]);
        v := if r.Raise? then Text(ErrorText) else r.value;
      } else {
        v := Text(NotImplementedText);
      }
    }

    /** `if key in self.ValidPIDs: self.PIDxxxx()` */
    method RunIfSupported(key: string, h: Handler) returns (r: Py<Value>)
      requires h.Bitmap? && Responsive(device)
      modifies this
      ensures Outcome(r, Snapshot()) == StepOf(IfSupported(key, h), device, tables, old(Snapshot()))
    {
      r := Ok(NoneValue);
      if key in validPids {
        r := RunBitmap(h);
      }
    }

    /** Connect: test the link with PID 0100, then fill the valid-PID table. */
    method Connect() returns (r: Py<bool>)
      requires Responsive(device)
      modifies this
      ensures Connection(r, Snapshot()) == ConnectOf(device, tables, old(Snapshot()))
    {
      var response :- GetResponse("0100");
      if Contains(response, "UNABLE TO CONNECT") {
        return Ok(false);
      }
      validPids := validPids["03" := FixedPids["03"]];
      validPids := validPids["04" := FixedPids["04"]];
      validPids := validPids["07" := FixedPids["07"]];
      assert validPids == old(validPids) + FixedPids;
      ghost var st := Snapshot();
      var x := RunBitmap(Pid0100);
      Advance(0, Always(Pid0100), device, tables, st, Outcome(x, Snapshot()));
      if x.Raise? {
        return Raise(x.error);
      }
      st := Snapshot();
      x := RunIfSupported("0120", Pid0120);
      Advance(1, IfSupported("0120", Pid0120), device, tables, st, Outcome(x, Snapshot()));
      if x.Raise? {
        return Raise(x.error);
      }
      st := Snapshot();
      x := RunIfSupported("0140", Pid0140);
      Advance(2, IfSupported("0140", Pid0140), device, tables, st, Outcome(x, Snapshot()));
      if x.Raise? {
        return Raise(x.error);
      }
      st := Snapshot();
      x := RunIfSupported("0160", Pid0160);
      Advance(3, IfSupported("0160", Pid0160), device, tables, st, Outcome(x, Snapshot()));
      if x.Raise? {
        return Raise(x.error);
      }
      st := Snapshot();
      x := RunIfSupported("0180", Pid0180);
      Advance(4, IfSupported("0180", Pid0180), device, tables, st, Outcome(x, Snapshot()));
      if x.Raise? {
        return Raise(x.error);
      }
      st := Snapshot();
      x := RunIfSupported("01A0", Pid01A0);
      Advance(5, IfSupported("01A0", Pid01A0), device, tables, st, Outcome(x, Snapshot()));
      if x.Raise? {
        return Raise(x.error);
      }
      st := Snapshot();
      x := RunIfSupported("01C0", Pid01C0);
      Advance(6, IfSupported("01C0", Pid01C0), device, tables, st, Outcome(x, Snapshot()));
      if x.Raise? {
        return Raise(x.error);
      }
      st := Snapshot();
      x := RunBitmap(Pid050100);
      Advance(7, Always(Pid050100), device, tables, st, Outcome(x, Snapshot()));
      if x.Raise? {
        return Raise(x.error);
      }
      st := Snapshot();
      x := RunBitmap(Pid0900);
      Advance(8, Always(Pid0900), device, tables, st, Outcome(x, Snapshot()));
      if x.Raise? {
        return Raise(x.error);
      }
      r := Ok(true);
    }

  }
}

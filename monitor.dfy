/** The monitor window: four tabs (CPU, RAM, GPU, System), each holding
    one table, and the refresh that rebuilds all four. What the operating
    system reports is an input here: every `psutil`/`platform` query of a
    tab is one reading, `None` when the query raised. Numbers arrive as the
    text Python formats them into; only the units the monitor appends are
    modelled. */
module Monitor {
  import opened Wrappers
  import opened PyStr
  import opened Table
  import opened GpuInfo

  // ---------------------------------------------------------------------
  // Readings

  /** What `update_cpu_info` reads before it writes anything: the processor
      name, the physical and logical core counts, the current frequency (as
      formatted with two decimals) and the usage percentage. */
  datatype CpuReadings = CpuReadings(
    model: string, physicalCores: string, logicalCores: string,
    frequency: string, usage: string)

  /** One entry of a sensor list: psutil's `label` and its `current`
      temperature. */
  datatype TempEntry = TempEntry(name: string, current: string)

  /** What `update_ram_info` reads: `virtual_memory()` (total, available,
      used in GiB with two decimals, and the percentage) and `swap_memory()`
      (total, used, free in GiB). */
  datatype RamReadings = RamReadings(
    total: string, available: string, used: string, percent: string,
    swapTotal: string, swapUsed: string, swapFree: string)

  /** What `update_system_info` reads: the OS name, the distribution's
      pretty name, the kernel release, the machine type and the formatted
      boot time. */
  datatype SystemReadings = SystemReadings(
    os: string, distribution: string, kernel: string, architecture: string,
    bootTime: string)

  /** Everything one `update_all_info` reads, tab by tab. `temps` is
      `sensors_temperatures()`, a map from sensor chip to its entries. */
  datatype Readings = Readings(
    cpu: Option<CpuReadings>,
    temps: Option<map<string, seq<TempEntry>>>,
    ram: Option<RamReadings>,
    smi: Option<string>,
    xrandr: Option<string>,
    system: Option<SystemReadings>)

  const CpuHeader := "== CPU Information =="
  const TempHeader := "== CPU Temperatures =="
  const RamHeader := "== Memory Information =="
  const SystemHeader := "== System Information =="

  // ---------------------------------------------------------------------
  // What each tab shows

  /** The `cpu_info` dictionary, in insertion order. */
  function CpuPairs(c: CpuReadings): seq<(string, string)> {
    [("CPU Model", c.model), ("Physical Cores", c.physicalCores),
     ("Logical Cores", c.logicalCores), ("Current Frequency", c.frequency + " MHz"),
     ("CPU Usage", c.usage + "%")]
  }

  /** One row per sensor entry: its label, and its temperature followed by
      "°C". */
  function EntryRows(entries: seq<TempEntry>): (rows: seq<Row>)
    ensures |rows| == |entries|
    decreases |entries|
  {
    if entries == [] then []
    else
      var last := entries[|entries| - 1];
      EntryRows(entries[..|entries| - 1]) + [StyledRow(last.name, last.current + DegreesCelsius)]
  }

  /** The temperature section: present only when the sensors answered and
      have a "coretemp" chip. */
  function TempRows(temps: Option<map<string, seq<TempEntry>>>): seq<Row> {
    if temps.Some? && "coretemp" in temps.value then
      [StyledRow(TempHeader, "")] + EntryRows(temps.value["coretemp"])
    else []
  }

  /** The CPU table after `update_cpu_info` with these readings. */
  function CpuRows(c: CpuReadings, temps: Option<map<string, seq<TempEntry>>>): seq<Row> {
    [StyledRow(CpuHeader, "")] + PairRows(CpuPairs(c)) + TempRows(temps)
  }

  /** The `ram_info` dictionary, in insertion order. */
  function RamPairs(m: RamReadings): seq<(string, string)> {
    [("Total Memory", m.total + " GB"), ("Available Memory", m.available + " GB"),
     ("Used Memory", m.used + " GB"), ("Memory Percentage", m.percent + "%"),
     ("Swap Total", m.swapTotal + " GB"), ("Swap Used", m.swapUsed + " GB"),
     ("Swap Free", m.swapFree + " GB")]
  }

  /** The RAM table after `update_ram_info` with these readings. */
  function RamRows(m: RamReadings): seq<Row> {
    [StyledRow(RamHeader, "")] + PairRows(RamPairs(m))
  }

  /** The `system_info` dictionary, in insertion order. */
  function SystemPairs(s: SystemReadings): seq<(string, string)> {
    [("OS", s.os), ("Distribution", s.distribution), ("Kernel Version", s.kernel),
     ("Architecture", s.architecture), ("Boot Time", s.bootTime)]
  }

  /** The System table after `update_system_info` with these readings. */
  function SystemRows(s: SystemReadings): seq<Row> {
    [StyledRow(SystemHeader, "")] + PairRows(SystemPairs(s))
  }

  /** A table after a refresh whose query may have raised: the table was
      cleared first, so a failed query leaves it empty. */
  function AfterQuery<R>(reading: Option<R>, rows: R -> seq<Row>): seq<Row> {
    if reading.Some? then rows(reading.value) else []
  }

  // ---------------------------------------------------------------------
  // The whole window

  /** The rows of the four tables. */
  datatype Tabs = Tabs(cpu: seq<Row>, ram: seq<Row>, gpu: seq<Row>, system: seq<Row>)

  const NoTabs := Tabs([], [], [], [])

  /** Whether `update_all_info` raises: the CPU, RAM and System queries are
      not guarded, the GPU commands are. */
  predicate Raises(r: Readings) {
    r.cpu.None? || r.ram.None? || r.system.None?
  }

  /** The four tables after `update_all_info`: the tabs are refreshed in the
      order CPU, RAM, GPU, System, and the first query that raises ends the
      refresh, leaving its own table empty and the later tables as they
      were. */
  function Refresh(t: Tabs, r: Readings): Tabs {
    var cpu := AfterQuery(r.cpu, c => CpuRows(c, r.temps));
    if r.cpu.None? then t.(cpu := cpu)
    else
      var ram := AfterQuery(r.ram, RamRows);
      if r.ram.None? then t.(cpu := cpu, ram := ram)
      else Tabs(cpu, ram, GpuRows(r.smi, r.xrandr), AfterQuery(r.system, SystemRows))
  }

  /** A refresh that does not raise shows only what it read: the tables
      before it make no difference. */
  lemma RefreshReplacesAll(t: Tabs, u: Tabs, r: Readings)
    requires !Raises(r)
    ensures Refresh(t, r) == Refresh(u, r)
    ensures Refresh(t, r) == Tabs(CpuRows(r.cpu.value, r.temps), RamRows(r.ram.value),
      GpuRows(r.smi, r.xrandr), SystemRows(r.system.value))
  {
  }

  /** Refreshing twice with the same readings shows the same tables as
      refreshing once, raised or not. */
  lemma RefreshIdempotent(t: Tabs, r: Readings)
    ensures Refresh(Refresh(t, r), r) == Refresh(t, r)
  {
  }

  /** The tabs are not isolated from one another: a CPU query that raises
      leaves the CPU table empty and the other three showing what they
      showed before. */
  lemma CpuFailureStopsRefresh(t: Tabs, r: Readings)
    requires r.cpu.None?
    ensures Refresh(t, r) == Tabs([], t.ram, t.gpu, t.system)
  {
  }

  /** Likewise a RAM query that raises: the CPU table is refreshed, the RAM
      table left empty, the GPU and System tables keep their rows. */
  lemma RamFailureStopsRefresh(t: Tabs, r: Readings)
    requires r.cpu.Some? && r.ram.None?
    ensures Refresh(t, r) == Tabs(CpuRows(r.cpu.value, r.temps), [], t.gpu, t.system)
  {
  }

  /** The CPU table: its header and the five fixed rows in order, then the
      temperature section, which is empty without a "coretemp" chip. */
  lemma CpuRowsShape(c: CpuReadings, temps: Option<map<string, seq<TempEntry>>>)
    ensures var rows := CpuRows(c, temps);
      |rows| == 6 + |TempRows(temps)| &&
      rows[0] == StyledRow("== CPU Information ==", "") && rows[0].isHeader &&
      rows[1] == StyledRow("CPU Model", c.model) &&
      rows[2] == StyledRow("Physical Cores", c.physicalCores) &&
      rows[3] == StyledRow("Logical Cores", c.logicalCores) &&
      rows[4] == StyledRow("Current Frequency", c.frequency + " MHz") &&
      rows[5] == StyledRow("CPU Usage", c.usage + "%") &&
      (forall i :: 1 <= i < 6 ==> !rows[i].isHeader) &&
      rows[6..] == TempRows(temps)
    ensures !(temps.Some? && "coretemp" in temps.value) ==> |CpuRows(c, temps)| == 6
  {
    var p := CpuPairs(c);
    var rows := CpuRows(c, temps);
    var fixed := [StyledRow(CpuHeader, "")] + PairRows(p);
    assert rows == fixed + TempRows(temps);
    assert |fixed| == 6;
    assert forall i :: 0 <= i < 6 ==> rows[i] == fixed[i];
    assert forall i :: 1 <= i < 6 ==> fixed[i] == PairRows(p)[i - 1];
    assert !IsHeaderLabel(p[0].0) && !IsHeaderLabel(p[1].0) && !IsHeaderLabel(p[2].0);
    assert !IsHeaderLabel(p[3].0) && !IsHeaderLabel(p[4].0);
  }

  /** With a "coretemp" chip the temperature section is its header and one
      row per entry, in order: the label, then the temperature with "°C". */
  lemma TempSectionShape(temps: Option<map<string, seq<TempEntry>>>)
    requires temps.Some? && "coretemp" in temps.value
    ensures var rows := TempRows(temps);
      var entries := temps.value["coretemp"];
      |rows| == 1 + |entries| &&
      rows[0] == StyledRow("== CPU Temperatures ==", "") && rows[0].isHeader &&
      forall j :: 0 <= j < |entries| ==>
        rows[1 + j] == StyledRow(entries[j].name, entries[j].current + "\U{B0}C")
  {
    var entries := temps.value["coretemp"];
    forall j | 0 <= j < |entries|
      ensures TempRows(temps)[1 + j] == StyledRow(entries[j].name, entries[j].current + DegreesCelsius)
    {
      EntryRowsAt(entries, j);
    }
  }

  /** Row `j` of the temperature rows is entry `j`'s row. */
  lemma {:induction false} EntryRowsAt(entries: seq<TempEntry>, j: nat)
    requires j < |entries|
    ensures EntryRows(entries)[j] == StyledRow(entries[j].name, entries[j].current + DegreesCelsius)
    decreases |entries|
  {
    var last := |entries| - 1;
    if j < last {
      EntryRowsAt(entries[..last], j);
    }
  }

  /** The RAM table: its header, then the seven fixed rows in order, sizes
      in "GB" and the usage in "%". */
  lemma RamRowsShape(m: RamReadings)
    ensures var rows := RamRows(m);
      |rows| == 8 &&
      rows[0] == StyledRow("== Memory Information ==", "") && rows[0].isHeader &&
      rows[1] == StyledRow("Total Memory", m.total + " GB") &&
      rows[2] == StyledRow("Available Memory", m.available + " GB") &&
      rows[3] == StyledRow("Used Memory", m.used + " GB") &&
      rows[4] == StyledRow("Memory Percentage", m.percent + "%") &&
      rows[5] == StyledRow("Swap Total", m.swapTotal + " GB") &&
      rows[6] == StyledRow("Swap Used", m.swapUsed + " GB") &&
      rows[7] == StyledRow("Swap Free", m.swapFree + " GB") &&
      (forall i :: 1 <= i < 8 ==> !rows[i].isHeader)
  {
    var p := RamPairs(m);
    var rows := RamRows(m);
    var pairs := PairRows(p);
    assert rows == [StyledRow(RamHeader, "")] + pairs;
    assert forall i :: 1 <= i < 8 ==> rows[i] == pairs[i - 1];
    assert !IsHeaderLabel(p[0].0) && !IsHeaderLabel(p[1].0) && !IsHeaderLabel(p[2].0);
    assert !IsHeaderLabel(p[3].0) && !IsHeaderLabel(p[4].0) && !IsHeaderLabel(p[5].0);
    assert !IsHeaderLabel(p[6].0);
  }

  /** The System table: its header, then the five fixed rows in order. */
  lemma SystemRowsShape(s: SystemReadings)
    ensures var rows := SystemRows(s);
      |rows| == 6 &&
      rows[0] == StyledRow("== System Information ==", "") && rows[0].isHeader &&
      rows[1] == StyledRow("OS", s.os) &&
      rows[2] == StyledRow("Distribution", s.distribution) &&
      rows[3] == StyledRow("Kernel Version", s.kernel) &&
      rows[4] == StyledRow("Architecture", s.architecture) &&
      rows[5] == StyledRow("Boot Time", s.bootTime) &&
      (forall i :: 1 <= i < 6 ==> !rows[i].isHeader)
  {
    var p := SystemPairs(s);
    var rows := SystemRows(s);
    var pairs := PairRows(p);
    assert rows == [StyledRow(SystemHeader, "")] + pairs;
    assert forall i :: 1 <= i < 6 ==> rows[i] == pairs[i - 1];
    assert !IsHeaderLabel(p[0].0) && !IsHeaderLabel(p[1].0) && !IsHeaderLabel(p[2].0);
    assert !IsHeaderLabel(p[3].0) && !IsHeaderLabel(p[4].0);
  }

  /** `HardwareMonitor`: the window with its four tables. */
  class HardwareMonitor {
    const cpuTable: InfoTable
    const ramTable: InfoTable
    const gpuTable: InfoTable
    const systemTable: InfoTable

    /** The four tables are distinct and each is well styled. */
    ghost predicate Valid()
      reads cpuTable, ramTable, gpuTable, systemTable
    {
      cpuTable != ramTable && cpuTable != gpuTable && cpuTable != systemTable &&
      ramTable != gpuTable && ramTable != systemTable && gpuTable != systemTable &&
      cpuTable.Valid() && ramTable.Valid() && gpuTable.Valid() && systemTable.Valid()
    }

    /** What the four tables show. */
    ghost function Snapshot(): Tabs
      reads cpuTable, ramTable, gpuTable, systemTable
    {
      Tabs(cpuTable.rows, ramTable.rows, gpuTable.rows, systemTable.rows)
    }

    /** `__init__`: `setup_ui` creates the four tabs, each with an empty
        table (`create_info_tab`), then runs the initial `update_all_info`. */
    constructor (r: Readings)
      ensures Valid()
      ensures fresh(cpuTable) && fresh(ramTable) && fresh(gpuTable) && fresh(systemTable)
      ensures Snapshot() == Refresh(NoTabs, r)
    {
      cpuTable := new InfoTable();
      ramTable := new InfoTable();
      gpuTable := new InfoTable();
      systemTable := new InfoTable();
      new;
      var _ := UpdateAllInfo(r);
    }

    /** `update_cpu_info`: clears the table, reads the CPU values (raising
        if a query fails), appends the header and the five rows, then, in a
        `try` that swallows every error, the temperature section. */
    method UpdateCpuInfo(c: Option<CpuReadings>, temps: Option<map<string, seq<TempEntry>>>)
      returns (raised: bool)
      requires Valid()
      modifies cpuTable
      ensures Valid()
      ensures raised <==> c.None?
      ensures cpuTable.rows == AfterQuery(c, c => CpuRows(c, temps))
    {
      cpuTable.Clear();
      if c.None? {
        return true;
      }
      cpuTable.AddInfo(CpuHeader, "");
      cpuTable.AddPairs(CpuPairs(c.value));
      ghost var fixed := [StyledRow(CpuHeader, "")] + PairRows(CpuPairs(c.value));
      assert cpuTable.rows == fixed;
      if temps.Some? && "coretemp" in temps.value {
        cpuTable.AddInfo(TempHeader, "");
        AddEntries(temps.value["coretemp"]);
        AppendAssociative(fixed, [StyledRow(TempHeader, "")], EntryRows(temps.value["coretemp"]));
      } else {
        assert cpuTable.rows == fixed + [];
      }
      return false;
    }

    /** The loop over the "coretemp" entries. */
    method AddEntries(entries: seq<TempEntry>)
      requires Valid()
      modifies cpuTable
      ensures Valid()
      ensures cpuTable.rows == old(cpuTable.rows) + EntryRows(entries)
    {
      for i := 0 to |entries|
        invariant Valid()
        invariant cpuTable.rows == old(cpuTable.rows) + EntryRows(entries[..i])
      {
        cpuTable.AddInfo(entries[i].name, entries[i].current + DegreesCelsius);
        assert entries[..i + 1][..i] == entries[..i];
      }
      assert entries[..|entries|] == entries;
    }

    /** `update_ram_info`: clears the table, reads the memory values
        (raising if a query fails), appends the header and the seven rows. */
    method UpdateRamInfo(m: Option<RamReadings>) returns (raised: bool)
      requires Valid()
      modifies ramTable
      ensures Valid()
      ensures raised <==> m.None?
      ensures ramTable.rows == AfterQuery(m, RamRows)
    {
      ramTable.Clear();
      if m.None? {
        return true;
      }
      ramTable.AddInfo(RamHeader, "");
      ramTable.AddPairs(RamPairs(m.value));
      return false;
    }

    /** `update_gpu_info`: clears the table, runs the `nvidia-smi` tier,
        falls back to the `xrandr` tier when the first raises, and appends
        the placeholder row when the fallback raises too. Never raises. */
    method UpdateGpuInfo(smi: Option<string>, xrandr: Option<string>)
      requires Valid()
      modifies gpuTable
      ensures Valid()
      ensures gpuTable.rows == GpuRows(smi, xrandr)
    {
      gpuTable.Clear();
      var completed := false;
      if smi.Some? {
        completed := AddNvidiaRows(gpuTable, smi.value);
        assert [] + Tier1(smi).rows == Tier1(smi).rows;
      }
      assert gpuTable.rows == Tier1(smi).rows && completed == Tier1(smi).completed;
      if !completed {
        var fallback := false;
        if xrandr.Some? {
          fallback := AddXrandrRows(gpuTable, xrandr.value);
        }
        assert gpuTable.rows == Tier1(smi).rows + Tier2(xrandr).rows;
        assert fallback == Tier2(xrandr).completed;
        if !fallback {
          gpuTable.AddInfo("GPU Information", "Not available");
          AppendAssociative(Tier1(smi).rows, Tier2(xrandr).rows, [NotAvailable]);
        } else {
          assert Tier2(xrandr).rows + [] == Tier2(xrandr).rows;
        }
      }
    }

    /** `update_system_info`: clears the table, reads the system values
        (raising if a query fails), appends the header and the five rows. */
    method UpdateSystemInfo(s: Option<SystemReadings>) returns (raised: bool)
      requires Valid()
      modifies systemTable
      ensures Valid()
      ensures raised <==> s.None?
      ensures systemTable.rows == AfterQuery(s, SystemRows)
    {
      systemTable.Clear();
      if s.None? {
        return true;
      }
      systemTable.AddInfo(SystemHeader, "");
      systemTable.AddPairs(SystemPairs(s.value));
      return false;
    }

    /** `update_all_info`: the four updates in order; an update that raises
        ends the refresh, and the result says whether one did. */
    method UpdateAllInfo(r: Readings) returns (raised: bool)
      requires Valid()
      modifies cpuTable, ramTable, gpuTable, systemTable
      ensures Valid()
      ensures raised == Raises(r)
      ensures Snapshot() == Refresh(old(Snapshot()), r)
    {
      raised := UpdateCpuInfo(r.cpu, r.temps);
      if raised {
        return;
      }
      raised := UpdateRamInfo(r.ram);
      if raised {
        return;
      }
      UpdateGpuInfo(r.smi, r.xrandr);
      raised := UpdateSystemInfo(r.system);
    }
  }
}

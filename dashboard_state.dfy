/** The dashboard component as a state machine (frontend/src/Dashboard.js).
    The component's state hooks are held in five fields, grouped by the
    handlers that update them together; each handler, timer callback and
    server reply is a method. Timers are not clocks here: a tick of the step
    interval, the end of the 800 ms grace period and a frame of the count-up
    interval each arrive as a method call. */
module DashboardState {
  import opened Wrappers
  import opened Text
  import opened AuditModel
  import opened DashboardViews

  /** Frame `frame` of the 60-frame count-up towards `target`:
      `Math.floor(target / 60 * frame)`, computed without rounding drift. */
  function CountUpFrame(target: int, frame: nat): int
  {
    target * frame / 60
  }

  /** The count-up starts from 0 and its 60th frame is the total itself. */
  lemma CountUpEnds(target: int)
    ensures CountUpFrame(target, 0) == 0 && CountUpFrame(target, 60) == target
  {
  }

  /** For a non-negative total the count-up never runs backwards and never
      overshoots. */
  lemma CountUpMonotone(target: int, a: nat, b: nat)
    requires target >= 0 && a <= b <= 60
    ensures 0 <= CountUpFrame(target, a) <= CountUpFrame(target, b) <= target
  {
    assert target * a <= target * b <= target * 60 by {
      MulMonotone(target, a, b);
      MulMonotone(target, b, 60);
    }
  }

  lemma MulMonotone(t: int, a: nat, b: nat)
    requires t >= 0 && a <= b
    ensures 0 <= t * a <= t * b
  {
  }

  /** The inputs of the form and of the share box. */
  datatype Form = Form(activeTab: Tab, codeSnippet: string, githubUrl: string, file: Option<string>,
    shareEmail: string)

  /** The scan lifecycle: `loading` (a request is in flight), `isScanning`
      (the scan screen replaces the form), the step cursor, the 600 ms step
      interval, and a reply waiting out the 800 ms grace period. */
  datatype Scan = Scan(loading: bool, isScanning: bool, scanStep: nat, stepTimerOn: bool,
    pending: Option<AuditResult>)
  {
    /** Idle, requesting, or waiting out the grace period. */
    predicate Ok()
    {
      && scanStep <= LastStep
      && (loading ==> isScanning && pending.None?)
      && (stepTimerOn <==> loading)
      && (isScanning && !loading <==> pending.Some?)
      && (pending.Some? ==> scanStep == LastStep)
      && (!isScanning ==> scanStep == 0)
    }
  }

  const Idle := Scan(false, false, 0, false, None)

  /** The scan lifecycle has exactly three kinds of state. */
  lemma ScanPhases(s: Scan)
    requires s.Ok()
    ensures || s == Idle
            || (s.loading && s.isScanning && s.stepTimerOn && s.pending.None?)
            || (!s.loading && s.isScanning && !s.stepTimerOn && s.scanStep == LastStep && s.pending.Some?)
  {
  }

  /** The count-up of the financial-risk figure: the figure shown, whether
      the interval runs, and the frames shown so far. */
  datatype CountUp = CountUp(animatedRisk: int, running: bool, frame: nat)
  {
    /** A running count-up shows a frame towards `target` (or, before its
        first frame, whatever it showed before); a stopped one shows `target`. */
    predicate Shows(target: int)
    {
      && (running ==> frame <= 60)
      && (running && frame > 0 ==> animatedRisk == CountUpFrame(target, frame))
      && (!running ==> animatedRisk == target)
    }
  }

  /** Disclosure state, chart and list switches, and the two dialogs. */
  datatype Panels = Panels(expandedGroups: map<string, bool>, expandedVulns: map<string, bool>,
    chartView: ChartView, viewMode: ViewMode, showTeamPanel: bool, showUpgradeModal: bool)

  datatype ViewMode = GroupedMode | AllMode

  class Dashboard {
    /** The plan read once from local storage when the component mounts. */
    const plan: string
    var form: Form
    var scan: Scan
    var auditResult: Option<AuditResult>
    var countUp: CountUp
    var panels: Panels

    /** The total the count-up runs towards; 0 while there is no result. */
    function Target(): int
      reads this
    {
      if auditResult.Some? then auditResult.value.detailedImpact.totalINR else 0
    }

    ghost predicate Valid()
      reads this
    {
      && scan.Ok()
      && (auditResult.None? ==> !countUp.running)
      && countUp.Shows(Target())
      && AtMostOneOpen(panels.expandedGroups)
      && (panels.showTeamPanel ==> plan == "enterprise")
    }

    /** Mounting the component. */
    constructor(storedPlan: Option<string>)
      ensures Valid()
      ensures plan == PlanOf(storedPlan)
      ensures form == Form(CodeTab, "", "", None, "")
      ensures scan == Idle && auditResult.None? && countUp == CountUp(0, false, 0)
      ensures panels == Panels(map[], map[], FinancialView, GroupedMode, false, false)
    {
      plan := PlanOf(storedPlan);
      form := Form(CodeTab, "", "", None, "");
      scan := Idle;
      auditResult := None;
      countUp := CountUp(0, false, 0);
      panels := Panels(map[], map[], FinancialView, GroupedMode, false, false);
    }

    /** handleCodeAudit up to the request: a blank snippet is refused with
        nothing changed; otherwise the scan starts at step 0 and the snippet
        is sent. The form (and with it the button) is only shown while no
        scan runs and no result is shown. */
    method StartCodeAudit() returns (sent: Option<string>)
      requires Valid() && !scan.isScanning && auditResult.None?
      modifies this
      ensures Valid()
      ensures unchanged(this`form, this`auditResult, this`countUp, this`panels)
      ensures IsBlank(form.codeSnippet) ==> sent.None? && scan == old(scan)
      ensures !IsBlank(form.codeSnippet) ==> sent == Some(form.codeSnippet) && scan == Scan(true, true, 0, true, None)
    {
      if IsBlank(form.codeSnippet) {
        return None;
      }
      scan := Scan(true, true, 0, true, None);
      sent := Some(form.codeSnippet);
    }

    /** handleRepoAudit up to the request: with no input for the current tab
        the scan it started is undone at once; otherwise the URL or the file
        is sent. Like the code button, it is only shown while no scan runs
        and no result is shown. */
    method StartRepoAudit() returns (sent: RepoInput)
      requires Valid() && !scan.isScanning && auditResult.None?
      modifies this
      ensures Valid()
      ensures unchanged(this`form, this`auditResult, this`countUp, this`panels)
      ensures sent == RepoAuditInput(form.activeTab, form.githubUrl, form.file)
      ensures sent.NoInput? ==> scan == Idle
      ensures !sent.NoInput? ==> scan == Scan(true, true, 0, true, None)
    {
      scan := Scan(true, true, 0, true, None);
      sent := RepoAuditInput(form.activeTab, form.githubUrl, form.file);
      if sent.NoInput? {
        scan := Idle;
      }
    }

    /** One tick of the step interval: advance, but never past the last step. */
    method StepTick()
      requires Valid() && scan.stepTimerOn
      modifies this
      ensures Valid()
      ensures unchanged(this`form, this`auditResult, this`countUp, this`panels)
      ensures scan == old(scan).(scanStep := if old(scan.scanStep) < LastStep then old(scan.scanStep) + 1 else LastStep)
    {
      if scan.scanStep < LastStep {
        scan := scan.(scanStep := scan.scanStep + 1);
      }
    }

    /** The server replied: the step interval stops, the cursor jumps to
        the last step and the reply waits out the grace period. */
    method AuditSucceeded(result: AuditResult)
      requires Valid() && scan.loading
      modifies this
      ensures Valid()
      ensures unchanged(this`form, this`auditResult, this`countUp, this`panels)
      ensures scan == Scan(false, true, LastStep, false, Some(result))
    {
      scan := Scan(false, true, LastStep, false, Some(result));
    }

    /** The request failed: back to the form, with nothing published. */
    method AuditFailed()
      requires Valid() && scan.loading
      modifies this
      ensures Valid()
      ensures unchanged(this`form, this`auditResult, this`countUp, this`panels)
      ensures scan == Idle
    {
      scan := Idle;
    }

    /** The grace period ends: the reply becomes the shown result, the scan
        screen closes, and the count-up restarts from frame 0 towards the
        new total (the figure keeps its old value until the first frame). */
    method GraceElapsed()
      requires Valid() && scan.pending.Some?
      modifies this
      ensures Valid()
      ensures unchanged(this`form, this`panels)
      ensures auditResult == old(scan.pending) && scan == Idle
      ensures countUp == CountUp(old(countUp.animatedRisk), true, 0)
    {
      auditResult := scan.pending;
      scan := Idle;
      countUp := countUp.(running := true, frame := 0);
    }

    /** One frame of the count-up interval: frames 1 to 60 show the floored
        fraction of the total, the 61st shows the exact total and stops. */
    method CounterTick()
      requires Valid() && countUp.running
      modifies this
      ensures Valid()
      ensures unchanged(this`form, this`scan, this`auditResult, this`panels)
      ensures old(countUp.frame) < 60 ==>
        countUp == CountUp(CountUpFrame(Target(), old(countUp.frame) + 1), true, old(countUp.frame) + 1)
      ensures old(countUp.frame) == 60 ==> countUp == CountUp(Target(), false, 61)
    {
      var frame := countUp.frame + 1;
      if frame <= 60 {
        countUp := CountUp(CountUpFrame(Target(), frame), true, frame);
      } else {
        countUp := CountUp(Target(), false, frame);
      }
    }

    /** The count-up interval left to run to its end takes `61 - frame`
        further frames and ends on the exact total; nothing else changes. */
    method RunCountUp() returns (frames: nat)
      requires Valid() && countUp.running
      modifies this
      ensures Valid()
      ensures unchanged(this`form, this`scan, this`auditResult, this`panels)
      ensures frames == 61 - old(countUp.frame)
      ensures countUp == CountUp(Target(), false, 61)
    {
      frames := 0;
      while countUp.running
        invariant Valid()
        invariant unchanged(this`form, this`scan, this`auditResult, this`panels)
        invariant countUp.running ==> countUp.frame == old(countUp.frame) + frames
        invariant !countUp.running ==> countUp.frame == 61 && frames == 61 - old(countUp.frame)
        decreases 61 - countUp.frame, countUp.running
      {
        CounterTick();
        frames := frames + 1;
      }
    }

    method ToggleGroupOf(category: string)
      requires Valid()
      modifies this
      ensures Valid()
      ensures unchanged(this`form, this`scan, this`auditResult, this`countUp)
      ensures panels == old(panels).(expandedGroups := ToggleGroup(old(panels.expandedGroups), category))
    {
      panels := panels.(expandedGroups := ToggleGroup(panels.expandedGroups, category));
    }

    method ToggleVulnOf(id: string)
      requires Valid()
      modifies this
      ensures Valid()
      ensures unchanged(this`form, this`scan, this`auditResult, this`countUp)
      ensures panels == old(panels).(expandedVulns := ToggleVuln(old(panels.expandedVulns), id))
    {
      panels := panels.(expandedVulns := ToggleVuln(panels.expandedVulns, id));
    }

    /** handleTeamClick: the enterprise plan opens the team panel, every
        other plan the upgrade dialog. */
    method HandleTeamClick()
      requires Valid()
      modifies this
      ensures Valid()
      ensures unchanged(this`form, this`scan, this`auditResult, this`countUp)
      ensures plan == "enterprise" ==> panels == old(panels).(showTeamPanel := true)
      ensures plan != "enterprise" ==> panels == old(panels).(showUpgradeModal := true)
    {
      if plan == "enterprise" {
        panels := panels.(showTeamPanel := true);
      } else {
        panels := panels.(showUpgradeModal := true);
      }
    }

    /** handleShareSummary, whose button sits in the team panel: a
        non-blank address is shared and cleared; a blank one is refused and
        kept. */
    method HandleShareSummary() returns (sharedTo: Option<string>)
      requires Valid() && panels.showTeamPanel
      modifies this
      ensures Valid()
      ensures unchanged(this`scan, this`auditResult, this`countUp, this`panels)
      ensures IsBlank(old(form.shareEmail)) ==> sharedTo.None? && form == old(form)
      ensures !IsBlank(old(form.shareEmail)) ==>
        && sharedTo == Some(old(form.shareEmail))
        && form == old(form).(shareEmail := "")
    {
      if IsBlank(form.shareEmail) {
        sharedTo := None;
      } else {
        sharedTo := Some(form.shareEmail);
        form := form.(shareEmail := "");
      }
    }

    /** handleFileChange: a selection replaces the file, an empty one keeps it. */
    method ChooseFile(selected: Option<string>)
      requires Valid()
      modifies this
      ensures Valid()
      ensures unchanged(this`scan, this`auditResult, this`countUp, this`panels)
      ensures form == old(form).(file := if selected.Some? then selected else old(form.file))
    {
      if selected.Some? {
        form := form.(file := selected);
      }
    }

    /** The plain setters bound to the inputs and tabs. */
    method EditForm(tab: Tab, code: string, url: string, email: string)
      requires Valid()
      modifies this
      ensures Valid()
      ensures unchanged(this`scan, this`auditResult, this`countUp, this`panels)
      ensures form == old(form).(activeTab := tab, codeSnippet := code, githubUrl := url, shareEmail := email)
    {
      form := form.(activeTab := tab, codeSnippet := code, githubUrl := url, shareEmail := email);
    }

    /** The chart and list switches and the close buttons of both dialogs. */
    method SetView(chart: ChartView, mode: ViewMode, closeDialogs: bool)
      requires Valid()
      modifies this
      ensures Valid()
      ensures unchanged(this`form, this`scan, this`auditResult, this`countUp)
      ensures panels == old(panels).(chartView := chart, viewMode := mode,
        showTeamPanel := old(panels.showTeamPanel) && !closeDialogs,
        showUpgradeModal := old(panels.showUpgradeModal) && !closeDialogs)
    {
      panels := panels.(chartView := chart, viewMode := mode);
      if closeDialogs {
        panels := panels.(showTeamPanel := false, showUpgradeModal := false);
      }
    }
  }

  /** One complete code audit from the idle form: the snippet is sent, the
      cursor reaches the last step whatever the number of ticks, the reply
      is shown and the count-up ends on its exact total. */
  method CodeAuditRun(d: Dashboard, ticks: nat, result: AuditResult) returns (sent: Option<string>)
    requires d.Valid() && !d.scan.isScanning && d.auditResult.None? && !IsBlank(d.form.codeSnippet)
    modifies d
    ensures d.Valid() && d.scan == Idle && sent == Some(d.form.codeSnippet)
    ensures d.auditResult == Some(result) && d.countUp.animatedRisk == result.detailedImpact.totalINR
  {
    sent := d.StartCodeAudit();
    var i := 0;
    while i < ticks
      invariant d.Valid() && d.scan.loading && d.form == old(d.form)
      invariant d.scan.scanStep == if i < LastStep then i else LastStep
      decreases ticks - i
    {
      d.StepTick();
      i := i + 1;
    }
    d.AuditSucceeded(result);
    d.GraceElapsed();
    var frames := d.RunCountUp();
  }
}

// The MCNP settings file reader and tally cards (Code/MCNP_Utilities.py).
module McnpSettingsFile {
  import opened Wrappers
  import opened PyMath
  import opened PyText

  // ---------------------------------------------------------------------------
  // Settings

  /** The reader's state: the two fields it sets and its two mode flags. */
  datatype SettingsScan = SettingsScan(phys: string, nps: real, inPhys: bool, inNps: bool, failed: bool)

  /** What a settings line says once stripped and lower-cased: the end of a
      block, a blank line, one of the two block keywords, or anything else. */
  datatype SettingsKey = EndKey | BlankKey | PhysicsKey | NpsKey | OtherKey

  function KeyOf(line: string): (k: SettingsKey)
    ensures k == EndKey <==> Lower(Strip(line)) == "/"
    ensures k == PhysicsKey <==> Lower(Strip(line)) == "physics:"
    ensures k == NpsKey <==> Lower(Strip(line)) == "nps:"
    ensures k == BlankKey <==> Lower(Strip(line)) == ""
  {
    var key := Lower(Strip(line));
    if key == "/" then EndKey
    else if key == "" then BlankKey
    else if key == "physics:" then PhysicsKey
    else if key == "nps:" then NpsKey
    else OtherKey
  }

  /** One line of a settings file. In Physics mode a line ends the block
      ('/') or is appended stripped with a newline; then, in NPS mode, the
      line ends the block or is parsed as the particle count, and otherwise
      the keyword switch runs on the stripped, lower-cased line. */
  function SettingsLine(st: SettingsScan, line: string): (r: SettingsScan)
    requires !st.failed
  {
    var key := KeyOf(line);
    var st1 :=
      if !st.inPhys then st
      else if key == EndKey then st.(inPhys := false)
      else st.(phys := st.phys + Strip(line) + "\n");
    if st1.inNps then
      if key == EndKey then st1.(inNps := false)
      else match ParseFloat(Strip(line))
        case None => st1.(failed := true)
        case Some(v) => st1.(nps := v)
    else if key == PhysicsKey then st1.(inPhys := true, phys := "")
    else if key == NpsKey then st1.(inNps := true)
    else if key == BlankKey then st1.(inPhys := false, inNps := false)
    else st1
  }

  /** The lines in order, stopping at the first float() failure. */
  function SettingsLines(st: SettingsScan, lines: seq<string>): SettingsScan
  {
    if lines == [] then st
    else
      var prev := SettingsLines(st, lines[..|lines| - 1]);
      if prev.failed then prev else SettingsLine(prev, lines[|lines| - 1])
  }

  /** The stripped lines of a Physics block, each followed by a newline. */
  function PhysText(body: seq<string>): string
  {
    if body == [] then "" else PhysText(body[..|body| - 1]) + Strip(body[|body| - 1]) + "\n"
  }

  /** A "Physics:" line, body lines and a "/" line replace the physics cards
      with the stripped body lines, one per line, and leave both modes off. */
  lemma PhysicsBlock(st: SettingsScan, header: string, body: seq<string>, end: string)
    requires !st.failed && !st.inNps
    requires KeyOf(header) == PhysicsKey && KeyOf(end) == EndKey
    requires forall k :: 0 <= k < |body| ==> KeyOf(body[k]) == OtherKey
    ensures SettingsLines(st, [header] + body + [end]) == st.(phys := PhysText(body), inPhys := false)
  {
    PhysicsBody(st, header, body);
    var lines := [header] + body + [end];
    assert lines[..|lines| - 1] == [header] + body;
  }

  lemma {:induction false} PhysicsBody(st: SettingsScan, header: string, body: seq<string>)
    requires !st.failed && !st.inNps
    requires KeyOf(header) == PhysicsKey
    requires forall k :: 0 <= k < |body| ==> KeyOf(body[k]) == OtherKey
    ensures SettingsLines(st, [header] + body) == st.(phys := PhysText(body), inPhys := true)
  {
    if body == [] {
      DropLast([], [header]);
      HeaderLine(st, header);
    } else {
      PhysicsBody(st, header, body[..|body| - 1]);
      PhysicsBodyStep(st, header, body);
    }
  }

  /** The step of `PhysicsBody`: one more body line is appended. */
  lemma PhysicsBodyStep(st: SettingsScan, header: string, body: seq<string>)
    requires body != [] && KeyOf(body[|body| - 1]) == OtherKey
    requires SettingsLines(st, [header] + body[..|body| - 1])
      == st.(phys := PhysText(body[..|body| - 1]), inPhys := true)
    requires !st.failed && !st.inNps
    ensures SettingsLines(st, [header] + body) == st.(phys := PhysText(body), inPhys := true)
  {
    DropLast([header], body);
    BodyLineStep(st.(phys := PhysText(body[..|body| - 1]), inPhys := true), body[|body| - 1]);
  }

  lemma HeaderLine(st: SettingsScan, header: string)
    requires !st.failed && !st.inNps
    requires KeyOf(header) == PhysicsKey
    ensures SettingsLine(st, header) == st.(phys := "", inPhys := true)
  {
  }

  lemma BodyLineStep(st: SettingsScan, line: string)
    requires !st.failed && st.inPhys && !st.inNps && KeyOf(line) == OtherKey
    ensures SettingsLine(st, line) == st.(phys := st.phys + Strip(line) + "\n")
  {
  }

  /** In NPS mode a line holding a number sets the particle count. */
  lemma NumberLine(st: SettingsScan, line: string, v: real)
    requires !st.failed && !st.inPhys && st.inNps
    requires KeyOf(line) != EndKey && ParseFloat(Strip(line)) == Some(v)
    ensures SettingsLine(st, line) == st.(nps := v)
  {
  }

  /** The five tally lines `set_tallies` adds for a cell and a material. */
  function TallyBlock(cell: int, mat: int): string
  {
    "FC14 Fission Reaction Rate (Fissions per cm^3 per src particle)\n"
    + "F14:n " + IntToString(cell) + "\n"
    + "FM14  (-1 " + IntToString(mat) + " -6)     $Flux * atom density of material "
    + IntToString(mat) + " * sigma f\n"
    + "FC24 Uranium Flux Spectra (Number per cm^2 per src neutron)\n"
    + "F24:n " + IntToString(cell) + "\n"
  }

  class McnpSettings {
    var phys: string
    var nps: real
    var tally: string
    var source: seq<(real, real)>

    /** The defaults: "MODE n\n", 1E6 particles, no tallies, no source. */
    constructor ()
      ensures phys == "MODE n\n" && nps == 1000000.0 && tally == "" && source == []
    {
      phys := "MODE n\n";
      nps := 1000000.0;
      tally := "";
      source := [];
    }

    /** `read_settings` over the lines of the file; a particle count that is
        not a number raises ValueError with the fields as far as they got. */
    method ReadSettings(lines: seq<string>) returns (r: Result<()>)
      modifies this`phys, this`nps
      ensures var st := SettingsLines(SettingsScan(old(phys), old(nps), false, false, false), lines);
        phys == st.phys && nps == st.nps && (r.Err? <==> st.failed)
    {
      var st := SettingsScan(phys, nps, false, false, false);
      ghost var init := st;
      var i := 0;
      while i < |lines|
        invariant i <= |lines|
        invariant st == SettingsLines(init, lines[..i])
        invariant phys == st.phys && nps == st.nps
      {
        assert lines[..i + 1][..i] == lines[..i];
        if st.failed {
          break;
        }
        st := SettingsLine(st, lines[i]);
        phys := st.phys;
        nps := st.nps;
        i := i + 1;
      }
      SettingsLinesStopped(init, lines, i);
      r := if st.failed then Err(ValueError("could not convert string to float")) else Ok(());
    }

    /** `set_tallies`: the standard block is appended to the user tallies. */
    method SetTallies(cell: int, mat: int)
      modifies this`tally
      ensures tally == old(tally) + TallyBlock(cell, mat)
      ensures |tally| > |old(tally)|
    {
      tally := tally + TallyBlock(cell, mat);
    }
  }

  /** Once the scan has failed, later lines change nothing. */
  lemma {:induction false} SettingsLinesStopped(st: SettingsScan, lines: seq<string>, i: nat)
    requires i <= |lines|
    requires i == |lines| || SettingsLines(st, lines[..i]).failed
    ensures SettingsLines(st, lines) == SettingsLines(st, lines[..i])
    decreases |lines|
  {
    if i < |lines| {
      var front := lines[..|lines| - 1];
      assert front[..i] == lines[..i];
      SettingsLinesStopped(st, front, i);
    } else {
      assert lines[..i] == lines;
    }
  }
}

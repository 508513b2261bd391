/** What a demo recording shows and says, written out from the demo description alone,
    without the compiler's blocks: the lines entered, the pauses, and the narration.  The
    emitted tape and schedule are proved to be exactly this script. */
module DemoScript {
  import opened Prelude
  import opened Text
  import opened DemoTape

  // ---- watching a tape ---------------------------------------------------------------

  datatype Happening = Line(text: string, visible: bool) | Pause(seconds: real, visible: bool)

  /** What has been typed since the last Enter, and what has happened. */
  datatype Console = Console(visible: bool, line: string, seen: seq<Happening>)

  function Watch1(c: Cmd, s: Console): Console {
    match c
    case Note => s
    case SetTypingSpeed(_) => s
    case Type(text) => s.(line := s.line + text)
    case Enter => s.(line := "", seen := s.seen + [Line(s.line, s.visible)])
    case Sleep(x) => s.(seen := s.seen + [Pause(x, s.visible)])
    case Hide => s.(visible := false)
    case Show => s.(visible := true)
  }

  function Watch(tape: seq<Cmd>, s: Console): Console {
    if tape == [] then s else Watch1(tape[|tape| - 1], Watch(tape[..|tape| - 1], s))
  }

  lemma {:induction false} WatchConcat(a: seq<Cmd>, b: seq<Cmd>, s: Console)
    ensures Watch(a + b, s) == Watch(b, Watch(a, s))
  {
    if b == [] {
      assert a + b == a;
    } else {
      assert (a + b)[..|a + b| - 1] == a + b[..|b| - 1];
      WatchConcat(a, b[..|b| - 1], s);
    }
  }

  /** What happened before has no influence on what happens next. */
  lemma {:induction false} WatchFrom(tape: seq<Cmd>, visible: bool, line: string, seen: seq<Happening>)
    ensures var t := Watch(tape, Console(visible, line, []));
            Watch(tape, Console(visible, line, seen)) == t.(seen := seen + t.seen)
  {
    if tape == [] {
      assert seen + [] == seen;
    } else {
      WatchFrom(tape[..|tape| - 1], visible, line, seen);
    }
  }

  /** Played on a console that is `before`-visible, the tape shows this and leaves it
      `after`-visible, with nothing half typed. */
  predicate Shows(tape: seq<Cmd>, before: bool, after: bool, script: seq<Happening>) {
    Watch(tape, Console(before, "", [])) == Console(after, "", script)
  }

  lemma ShowsConcat(a: seq<Cmd>, b: seq<Cmd>, v0: bool, v1: bool, v2: bool, sa: seq<Happening>, sb: seq<Happening>)
    requires Shows(a, v0, v1, sa) && Shows(b, v1, v2, sb)
    ensures Shows(a + b, v0, v2, sa + sb)
  {
    WatchConcat(a, b, Console(v0, "", []));
    WatchFrom(b, v1, "", sa);
  }

  lemma WatchOne(a: Cmd, s: Console)
    ensures Watch([a], s) == Watch1(a, s)
  {
    assert [a][..0] == [];
  }

  lemma WatchTwo(a: Cmd, b: Cmd, s: Console)
    ensures Watch([a, b], s) == Watch1(b, Watch1(a, s))
  {
    assert [a, b][..1] == [a];
    WatchOne(a, s);
  }

  lemma WatchThree(a: Cmd, b: Cmd, c: Cmd, s: Console)
    ensures Watch([a, b, c], s) == Watch1(c, Watch1(b, Watch1(a, s)))
  {
    assert [a, b, c][..2] == [a, b];
    WatchTwo(a, b, s);
  }

  lemma WatchFour(a: Cmd, b: Cmd, c: Cmd, d: Cmd, s: Console)
    ensures Watch([a, b, c, d], s) == Watch1(d, Watch1(c, Watch1(b, Watch1(a, s))))
  {
    assert [a, b, c, d][..3] == [a, b, c];
    WatchThree(a, b, c, s);
  }

  /** Typing a line, entering it and pausing. */
  lemma ShowsLine(text: string, pause: real, visible: bool)
    ensures Shows([Type(text), Enter, Sleep(pause)], visible, visible, [Line(text, visible), Pause(pause, visible)])
  {
    WatchThree(Type(text), Enter, Sleep(pause), Console(visible, "", []));
    assert "" + text == text;
    assert [] + [Line(text, visible)] == [Line(text, visible)];
    assert [Line(text, visible)] + [Pause(pause, visible)] == [Line(text, visible), Pause(pause, visible)];
  }

  // ---- how long a narration needs ----------------------------------------------------------

  /** A recorded duration, or else the estimate from the speaking rate. */
  function Spoken(cfg: Config, scene: int, beat: int, text: string): real {
    if (scene, beat) in cfg.durations then cfg.durations[(scene, beat)]
    else if cfg.cps > 0.0 then |text| as real / cfg.cps
    else 0.0
  }

  lemma SpokenIsAudio(cfg: Config, scene: int, beat: int, text: string)
    ensures AudioSeconds(cfg, scene, beat, text) == Spoken(cfg, scene, beat, text)
  {
    if cfg.cps > 0.0 { EstimateIsLengthOverRate(text, cfg.cps); }
  }

  /** The declared hold, or what a narration that is not blank needs if that is more. */
  function HeldFor(cfg: Config, card: Card, scene: int, beat: int): real {
    var needed := Spoken(cfg, scene, beat, Strip(card.narration)) + cfg.buffer;
    if !Blank(card.narration) && needed > card.hold then needed else card.hold
  }

  lemma HeldIsFitted(cfg: Config, card: Card, scene: int, beat: int)
    ensures FitHold(cfg, card, scene, beat) == HeldFor(cfg, card, scene, beat)
  {
    StripBlank(card.narration);
    SpokenIsAudio(cfg, scene, beat, Strip(card.narration));
  }

  /** Beat `k`, counted from 0, is over this long after the output shows. */
  function Over(cfg: Config, scene: Scene, k: nat): real
    requires k < |scene.beats|
  {
    scene.beats[k].offset + Spoken(cfg, scene.n, k + 1, Strip(scene.beats[k].text))
  }

  /** The screen is the declared one or the least that fits all beats that end after the
      output shows. */
  ghost predicate Screened(cfg: Config, scene: Scene, screen: real) {
    && screen >= scene.screen
    && (forall k :: 0 <= k < |scene.beats| && Over(cfg, scene, k) > 0.0 ==> Over(cfg, scene, k) + cfg.buffer <= screen)
    && (screen == scene.screen
        || exists k :: 0 <= k < |scene.beats| && Over(cfg, scene, k) > 0.0 && screen == Over(cfg, scene, k) + cfg.buffer)
  }

  lemma OverIsBeatEnd(cfg: Config, scene: Scene, k: nat)
    requires k < |scene.beats|
    ensures BeatEnd(cfg, scene, k) == Over(cfg, scene, k)
  {
    SpokenIsAudio(cfg, scene.n, k + 1, Strip(scene.beats[k].text));
  }

  lemma ScreenIsScreened(cfg: Config, scene: Scene)
    ensures Screened(cfg, scene, ScreenSeconds(cfg, scene))
  {
    forall k | 0 <= k < |scene.beats| ensures Over(cfg, scene, k) == BeatEnd(cfg, scene, k) {
      OverIsBeatEnd(cfg, scene, k);
    }
    var latest := LatestEnd(cfg, scene, |scene.beats|);
    if latest > 0.0 {
      var k :| 0 <= k < |scene.beats| && BeatEnd(cfg, scene, k) == latest;
      assert Over(cfg, scene, k) == latest;
    }
  }

  /** Only one screen time is that. */
  lemma ScreenedOnce(cfg: Config, scene: Scene, a: real, b: real)
    requires Screened(cfg, scene, a) && Screened(cfg, scene, b)
    ensures a == b
  {
  }

  /** The warning about beat `i`, which starts before the one before it is over. */
  predicate Clash(cfg: Config, scene: Scene, i: int, w: Warning) {
    && 1 <= i < |scene.beats| && scene.beats[i].offset < Over(cfg, scene, i - 1)
    && w == BeatOverlap(scene.n, i + 1, scene.beats[i].offset, Over(cfg, scene, i - 1))
  }

  lemma LastClash(cfg: Config, scene: Scene, k: nat, w: Warning)
    requires 0 < k <= |scene.beats|
    ensures w in OverlapWarnings(cfg, scene, k) <==> w in OverlapWarnings(cfg, scene, k - 1) || Clash(cfg, scene, k - 1, w)
  {
    if k > 1 { OverIsBeatEnd(cfg, scene, k - 2); }
  }

  /** An overlap is warned of exactly for each beat that starts before the one before it
      is over, and with these figures. */
  lemma {:induction false} OverlapsExactly(cfg: Config, scene: Scene, k: nat, w: Warning)
    requires k <= |scene.beats|
    ensures w in OverlapWarnings(cfg, scene, k) <==> exists i :: i < k && Clash(cfg, scene, i, w)
  {
    if k > 0 {
      OverlapsExactly(cfg, scene, k - 1, w);
      LastClash(cfg, scene, k, w);
    }
  }

  // ---- the script ------------------------------------------------------------------------------

  function CardScript(command: string, hold: real): seq<Happening> {
    [Line(command, true), Pause(hold, true)]
  }

  function SceneScript(cfg: Config, scene: Scene): seq<Happening> {
    [ Line("headline " + Decimal(scene.n) + " \"" + scene.title + "\"", true), Pause(2.5, true),
      Line("clear", false),
      Pause(1.0, true), Line(scene.command, true), Pause(ScreenSeconds(cfg, scene), true),
      Line("progress " + Decimal(scene.n), true), Pause(2.5, true) ]
  }

  function ScenesScript(cfg: Config, scenes: seq<Scene>): seq<Happening> {
    if scenes == [] then []
    else ScenesScript(cfg, scenes[..|scenes| - 1]) + SceneScript(cfg, scenes[|scenes| - 1])
  }

  function SetupScript(setup: seq<SetupStep>): seq<Happening> {
    if setup == [] then []
    else
      var last := setup[|setup| - 1];
      SetupScript(setup[..|setup| - 1]) + [Line(last.run, false), Pause(last.wait, false)]
  }

  /** The hidden setup, and the pre-roll after it. */
  function OpeningScript(demo: Demo): seq<Happening> {
    [Line(demo.activate, false), Pause(0.5, false), Line(demo.sourceHelpers, false), Pause(0.5, false)]
    + SetupScript(demo.setup)
    + [Line("_replay_install", false), Pause(0.2, false), Line("clear", false), Pause(0.3, false)]
    + [Pause(1.0, true)]
  }

  function Script(demo: Demo): seq<Happening> {
    OpeningScript(demo)
    + (CardScript("titlecard", HeldFor(demo.cfg, demo.titleCard, 0, 1))
       + CardScript("progress 0", HeldFor(demo.cfg, demo.checklist, 0, 2))
       + ScenesScript(demo.cfg, demo.scenes)
       + CardScript("outrocard", HeldFor(demo.cfg, demo.outroCard, 999, 1)))
  }

  // ---- the tape follows the script ----------------------------------------------------------------

  lemma NotesShowNothing(k: nat, tape: seq<Cmd>, visible: bool)
    requires k == |tape| <= 3 && forall i :: 0 <= i < |tape| ==> tape[i].Note? || tape[i].SetTypingSpeed?
    ensures Shows(tape, visible, visible, [])
  {
    if k > 0 { NotesShowNothing(k - 1, tape[..k - 1], visible); }
  }

  lemma CardFollows(cfg: Config, card: Card, command: string, scene: int, beat: int)
    ensures Shows(CardBlock(cfg, card, command, scene, beat).Tape(), true, true,
                  CardScript(command, HeldFor(cfg, card, scene, beat)))
  {
    var b := CardBlock(cfg, card, command, scene, beat);
    HeldIsFitted(cfg, card, scene, beat);
    NotesShowNothing(2, [Note, Note], true);
    ShowsLine(command, b.hold, true);
    ShowsConcat([Note, Note], [Type(command), Enter, Sleep(b.hold)], true, true, true, [], CardScript(command, b.hold));
    assert b.Tape() == [Note, Note] + [Type(command), Enter, Sleep(b.hold)];
    assert [] + CardScript(command, b.hold) == CardScript(command, b.hold);
  }

  lemma ClearFollows()
    ensures Shows([Hide, Type("clear"), Enter, Show], true, true, [Line("clear", false)])
  {
    WatchFour(Hide, Type("clear"), Enter, Show, Console(true, "", []));
    assert "" + "clear" == "clear";
    assert [] + [Line("clear", false)] == [Line("clear", false)];
  }

  /** The command is typed, looked at, and only then entered. */
  lemma CommandFollows(command: string, lag: real, screen: real)
    ensures Shows([Type(command), Sleep(lag), Enter, Sleep(screen)], true, true,
                  [Pause(lag, true), Line(command, true), Pause(screen, true)])
  {
    WatchFour(Type(command), Sleep(lag), Enter, Sleep(screen), Console(true, "", []));
    assert "" + command == command;
    assert [] + [Pause(lag, true)] == [Pause(lag, true)];
    assert [Pause(lag, true)] + [Line(command, true)] == [Pause(lag, true), Line(command, true)];
    assert [Pause(lag, true), Line(command, true)] + [Pause(screen, true)]
        == [Pause(lag, true), Line(command, true), Pause(screen, true)];
  }

  lemma SceneFollows(cfg: Config, scene: Scene)
    ensures Shows(SceneBlock(cfg, scene).Tape(), true, true, SceneScript(cfg, scene))
  {
    var b := SceneBlock(cfg, scene);
    var headline, progress := "headline " + Decimal(scene.n) + " \"" + scene.title + "\"", "progress " + Decimal(scene.n);
    var t1 := [Type(headline), Enter, Sleep(2.5)];
    var t2 := [Hide, Type("clear"), Enter, Show];
    var t3 := [Type(scene.command), Sleep(1.0), Enter, Sleep(b.hold)];
    var t4 := [Type(progress), Enter, Sleep(2.5)];
    var s1 := [Line(headline, true), Pause(2.5, true)];
    var s2 := [Line("clear", false)];
    var s3 := [Pause(1.0, true), Line(scene.command, true), Pause(b.hold, true)];
    var s4 := [Line(progress, true), Pause(2.5, true)];
    NotesShowNothing(3, [Note, Note, Note], true);
    ShowsLine(headline, 2.5, true);
    ClearFollows();
    CommandFollows(scene.command, 1.0, b.hold);
    ShowsLine(progress, 2.5, true);
    ShowsConcat([Note, Note, Note], t1, true, true, true, [], s1);
    ShowsConcat([Note, Note, Note] + t1, t2, true, true, true, [] + s1, s2);
    ShowsConcat([Note, Note, Note] + t1 + t2, t3, true, true, true, [] + s1 + s2, s3);
    ShowsConcat([Note, Note, Note] + t1 + t2 + t3, t4, true, true, true, [] + s1 + s2 + s3, s4);
    SceneTapeParts(cfg, scene, t1, t2, t3, t4);
    assert [] + s1 + s2 + s3 + s4 == SceneScript(cfg, scene);
  }

  lemma SceneTapeParts(cfg: Config, scene: Scene, t1: seq<Cmd>, t2: seq<Cmd>, t3: seq<Cmd>, t4: seq<Cmd>)
    requires t1 == [Type("headline " + Decimal(scene.n) + " \"" + scene.title + "\""), Enter, Sleep(2.5)]
    requires t2 == [Hide, Type("clear"), Enter, Show]
    requires t3 == [Type(scene.command), Sleep(1.0), Enter, Sleep(SceneBlock(cfg, scene).hold)]
    requires t4 == [Type("progress " + Decimal(scene.n)), Enter, Sleep(2.5)]
    ensures SceneBlock(cfg, scene).Tape() == [Note, Note, Note] + t1 + t2 + t3 + t4
  {
  }

  lemma {:induction false} TapesConcat(a: seq<Block>, b: seq<Block>)
    ensures Tapes(a + b) == Tapes(a) + Tapes(b)
  {
    if b == [] {
      assert a + b == a;
    } else {
      assert (a + b)[..|a + b| - 1] == a + b[..|b| - 1];
      TapesConcat(a, b[..|b| - 1]);
      Associate(Tapes(a), Tapes(b[..|b| - 1]), b[|b| - 1].Tape());
    }
  }

  lemma TapesOne(b: Block)
    ensures Tapes([b]) == b.Tape()
  {
    assert [b][..0] == [];
    assert [] + b.Tape() == b.Tape();
  }

  lemma SceneTapes(cfg: Config, scenes: seq<Scene>)
    requires scenes != []
    ensures Tapes(SceneBlocks(cfg, scenes))
         == Tapes(SceneBlocks(cfg, scenes[..|scenes| - 1])) + SceneBlock(cfg, scenes[|scenes| - 1]).Tape()
  {
    assert SceneBlocks(cfg, scenes)[..|scenes| - 1] == SceneBlocks(cfg, scenes[..|scenes| - 1]);
  }

  lemma {:induction false} ScenesFollow(cfg: Config, scenes: seq<Scene>)
    ensures Shows(Tapes(SceneBlocks(cfg, scenes)), true, true, ScenesScript(cfg, scenes))
  {
    if scenes != [] {
      var before, last := scenes[..|scenes| - 1], scenes[|scenes| - 1];
      ScenesFollow(cfg, before);
      SceneFollows(cfg, last);
      SceneTapes(cfg, scenes);
      ShowsConcat(Tapes(SceneBlocks(cfg, before)), SceneBlock(cfg, last).Tape(), true, true, true,
                  ScenesScript(cfg, before), SceneScript(cfg, last));
    }
  }

  lemma {:induction false} SetupFollows(setup: seq<SetupStep>)
    ensures Shows(SetupTape(setup), false, false, SetupScript(setup))
  {
    if setup != [] {
      var before, last := setup[..|setup| - 1], setup[|setup| - 1];
      SetupFollows(before);
      ShowsLine(last.run, last.wait, false);
      ShowsConcat(SetupTape(before), [Type(last.run), Enter, Sleep(last.wait)], false, false, false,
                  SetupScript(before), [Line(last.run, false), Pause(last.wait, false)]);
    }
  }

  lemma HeaderFollows(demo: Demo)
    ensures Shows(Header(demo), true, false, [Line(demo.activate, false), Pause(0.5, false), Line(demo.sourceHelpers, false), Pause(0.5, false)])
  {
    var notes, dark := [Note, Note, SetTypingSpeed(demo.cfg.ms)], [Hide];
    var a, b := [Type(demo.activate), Enter, Sleep(0.5)], [Type(demo.sourceHelpers), Enter, Sleep(0.5)];
    var sa, sb := [Line(demo.activate, false), Pause(0.5, false)], [Line(demo.sourceHelpers, false), Pause(0.5, false)];
    NotesShowNothing(3, notes, true);
    assert Shows(dark, true, false, []) by { assert dark[..0] == []; }
    ShowsLine(demo.activate, 0.5, false);
    ShowsLine(demo.sourceHelpers, 0.5, false);
    ShowsConcat(notes, dark, true, true, false, [], []);
    ShowsConcat(notes + dark, a, true, false, false, [] + [], sa);
    ShowsConcat(notes + dark + a, b, true, false, false, [] + [] + sa, sb);
    assert Header(demo) == notes + dark + a + b;
    assert [] + [] + sa + sb
        == [Line(demo.activate, false), Pause(0.5, false), Line(demo.sourceHelpers, false), Pause(0.5, false)];
  }

  lemma InstallFollows()
    ensures Shows(INSTALL, false, true,
                  [Line("_replay_install", false), Pause(0.2, false), Line("clear", false), Pause(0.3, false)] + [Pause(1.0, true)])
  {
    var a, b := [Type("_replay_install"), Enter, Sleep(0.2)], [Type("clear"), Enter, Sleep(0.3)];
    var c := [Show, Note, Note, Sleep(1.0)];
    var sa, sb := [Line("_replay_install", false), Pause(0.2, false)], [Line("clear", false), Pause(0.3, false)];
    ShowsLine("_replay_install", 0.2, false);
    ShowsLine("clear", 0.3, false);
    WatchFour(Show, Note, Note, Sleep(1.0), Console(false, "", []));
    assert [] + [Pause(1.0, true)] == [Pause(1.0, true)];
    ShowsConcat(a, b, false, false, false, sa, sb);
    ShowsConcat(a + b, c, false, false, true, sa + sb, [Pause(1.0, true)]);
    assert INSTALL == a + b + c;
    assert sa + sb == [Line("_replay_install", false), Pause(0.2, false), Line("clear", false), Pause(0.3, false)];
  }

  lemma OpeningFollows(demo: Demo)
    ensures Shows(Opening(demo), true, true, OpeningScript(demo))
  {
    HeaderFollows(demo);
    SetupFollows(demo.setup);
    InstallFollows();
    var head := [Line(demo.activate, false), Pause(0.5, false), Line(demo.sourceHelpers, false), Pause(0.5, false)];
    var install := [Line("_replay_install", false), Pause(0.2, false), Line("clear", false), Pause(0.3, false)];
    ShowsConcat(Header(demo), SetupTape(demo.setup), true, false, false, head, SetupScript(demo.setup));
    ShowsConcat(Header(demo) + SetupTape(demo.setup), INSTALL, true, false, true,
                head + SetupScript(demo.setup), install + [Pause(1.0, true)]);
    Associate(head + SetupScript(demo.setup), install, [Pause(1.0, true)]);
  }

  /** The emitted tape does exactly what the script says: which lines are entered, in which
      order, hidden or shown, and every pause between them. */
  lemma TapeFollowsScript(demo: Demo)
    ensures Shows(FullTape(demo), true, true, Script(demo))
  {
    var title, checklist, outro := TitleBlock(demo), ChecklistBlock(demo), OutroBlock(demo);
    var scenes := SceneBlocks(demo.cfg, demo.scenes);
    CardFollows(demo.cfg, demo.titleCard, "titlecard", 0, 1);
    CardFollows(demo.cfg, demo.checklist, "progress 0", 0, 2);
    ScenesFollow(demo.cfg, demo.scenes);
    CardFollows(demo.cfg, demo.outroCard, "outrocard", 999, 1);
    var s0, s1 := CardScript("titlecard", HeldFor(demo.cfg, demo.titleCard, 0, 1)), CardScript("progress 0", HeldFor(demo.cfg, demo.checklist, 0, 2));
    var s2, s3 := ScenesScript(demo.cfg, demo.scenes), CardScript("outrocard", HeldFor(demo.cfg, demo.outroCard, 999, 1));
    PlanTapes(title, checklist, scenes, outro);
    ShowsConcat(title.Tape(), checklist.Tape(), true, true, true, s0, s1);
    ShowsConcat(title.Tape() + checklist.Tape(), Tapes(scenes), true, true, true, s0 + s1, s2);
    ShowsConcat(title.Tape() + checklist.Tape() + Tapes(scenes), outro.Tape(), true, true, true, s0 + s1 + s2, s3);
    OpeningFollows(demo);
    ShowsConcat(Opening(demo), Tapes(Plan(demo)), true, true, true, OpeningScript(demo), s0 + s1 + s2 + s3);
  }

  /** Whatever the blocks are. */
  lemma PlanTapes(title: Block, checklist: Block, scenes: seq<Block>, outro: Block)
    ensures Tapes([title, checklist] + scenes + [outro])
         == title.Tape() + checklist.Tape() + Tapes(scenes) + outro.Tape()
  {
    var cards := [title] + [checklist];
    assert [title, checklist] + scenes + [outro] == cards + scenes + [outro];
    TapesConcat(cards + scenes, [outro]);
    TapesConcat(cards, scenes);
    TapesConcat([title], [checklist]);
    TapesOne(title);
    TapesOne(checklist);
    TapesOne(outro);
  }

  // ---- the narration -----------------------------------------------------------------------------

  /** A card or a scene: how long it takes, and what is spoken when, from its own start. */
  datatype Part = Part(seconds: real, spoken: seq<Clip>)

  /** A card speaks as soon as it shows, which is when its command is typed, and then holds. */
  function CardPart(cfg: Config, card: Card, command: string, scene: int, beat: int): Part {
    var shown := TypingSeconds(command, cfg.ms);
    Part(shown + HeldFor(cfg, card, scene, beat),
         if card.narration == "" then [] else [Clip(scene, beat, shown, Strip(card.narration))])
  }

  /** From the start of a scene to its output. */
  function SceneWait(cfg: Config, scene: Scene): real {
    TypingSeconds("headline " + Decimal(scene.n) + " \"" + scene.title + "\"", cfg.ms) + 2.5
    + TypingSeconds(scene.command, cfg.ms) + 1.0
  }

  /** A scene speaks each beat at its offset from the output. */
  function ScenePart(cfg: Config, scene: Scene): Part {
    var shown := SceneWait(cfg, scene);
    Part(shown + ScreenSeconds(cfg, scene) + TypingSeconds("progress " + Decimal(scene.n), cfg.ms) + 2.5,
         seq(|scene.beats|, k requires 0 <= k < |scene.beats| =>
           Clip(scene.n, k + 1, shown + scene.beats[k].offset, Strip(scene.beats[k].text))))
  }

  function Parts(demo: Demo): seq<Part> {
    [CardPart(demo.cfg, demo.titleCard, "titlecard", 0, 1), CardPart(demo.cfg, demo.checklist, "progress 0", 0, 2)]
    + seq(|demo.scenes|, i requires 0 <= i < |demo.scenes| => ScenePart(demo.cfg, demo.scenes[i]))
    + [CardPart(demo.cfg, demo.outroCard, "outrocard", 999, 1)]
  }

  function Length(parts: seq<Part>): real {
    if parts == [] then 0.0 else parts[0].seconds + Length(parts[1..])
  }

  function At(t: real, clips: seq<Clip>): seq<Clip> {
    seq(|clips|, i requires 0 <= i < |clips| => Clip(clips[i].scene, clips[i].beat, t + clips[i].start, clips[i].text))
  }

  /** Each part starts where the one before it ends, the first at `t`. */
  function Narration(parts: seq<Part>, t: real): seq<Clip> {
    if parts == [] then [] else At(t, parts[0].spoken) + Narration(parts[1..], t + parts[0].seconds)
  }

  lemma {:induction false} PlacedConcat(a: seq<Block>, b: seq<Block>, t: real)
    ensures Seconds(a + b) == Seconds(a) + Seconds(b)
    ensures Placed(a + b, t) == Placed(a, t) + Placed(b, t + Seconds(a))
  {
    if b == [] {
      assert a + b == a;
    } else {
      var before, last := b[..|b| - 1], b[|b| - 1];
      assert (a + b)[..|a + b| - 1] == a + before;
      PlacedConcat(a, before, t);
      Associate(Placed(a, t), Placed(before, t + Seconds(a)), Moved(last.clips, t + Seconds(a) + Seconds(before)));
    }
  }

  lemma PlacedOne(b: Block, t: real)
    ensures Seconds([b]) == b.seconds && Placed([b], t) == Moved(b.clips, t)
  {
    assert [b][..0] == [];
    assert [] + Moved(b.clips, t) == Moved(b.clips, t);
  }

  predicate Gives(b: Block, p: Part) {
    b.seconds == p.seconds && b.clips == p.spoken
  }

  lemma {:induction false} BlocksGive(blocks: seq<Block>, parts: seq<Part>, t: real)
    requires |blocks| == |parts| && forall i :: 0 <= i < |parts| ==> Gives(blocks[i], parts[i])
    ensures Seconds(blocks) == Length(parts) && Placed(blocks, t) == Narration(parts, t)
  {
    if blocks != [] {
      assert Gives(blocks[0], parts[0]);
      assert blocks == [blocks[0]] + blocks[1..];
      PlacedConcat([blocks[0]], blocks[1..], t);
      PlacedOne(blocks[0], t);
      BlocksGive(blocks[1..], parts[1..], t + parts[0].seconds);
      assert Moved(blocks[0].clips, t) == At(t, parts[0].spoken);
    }
  }

  lemma CardGives(cfg: Config, card: Card, command: string, scene: int, beat: int)
    ensures Gives(CardBlock(cfg, card, command, scene, beat), CardPart(cfg, card, command, scene, beat))
  {
    HeldIsFitted(cfg, card, scene, beat);
  }

  lemma SceneGives(cfg: Config, scene: Scene)
    ensures Gives(SceneBlock(cfg, scene), ScenePart(cfg, scene))
  {
    var wait := SceneWait(cfg, scene);
    assert OutputOffset(scene, cfg.ms) == wait;
    var clips, spoken := SceneClips(scene, wait, |scene.beats|), ScenePart(cfg, scene).spoken;
    forall k | 0 <= k < |scene.beats| ensures clips[k] == spoken[k] {
      SceneClipAt(scene, wait, |scene.beats|, k);
    }
  }

  lemma PartAt(demo: Demo, i: nat)
    requires i < |Parts(demo)|
    ensures Parts(demo)[i] == if i == 0 then CardPart(demo.cfg, demo.titleCard, "titlecard", 0, 1)
                              else if i == 1 then CardPart(demo.cfg, demo.checklist, "progress 0", 0, 2)
                              else if i < 2 + |demo.scenes| then ScenePart(demo.cfg, demo.scenes[i - 2])
                              else CardPart(demo.cfg, demo.outroCard, "outrocard", 999, 1)
  {
  }

  lemma PlanGives(demo: Demo, i: nat)
    requires i < |Plan(demo)|
    ensures |Plan(demo)| == |Parts(demo)| && Gives(Plan(demo)[i], Parts(demo)[i])
  {
    PlanAt(demo, i);
    PartAt(demo, i);
    if i == 0 {
      CardGives(demo.cfg, demo.titleCard, "titlecard", 0, 1);
    } else if i == 1 {
      CardGives(demo.cfg, demo.checklist, "progress 0", 0, 2);
    } else if i < 2 + |demo.scenes| {
      SceneGives(demo.cfg, demo.scenes[i - 2]);
    } else {
      CardGives(demo.cfg, demo.outroCard, "outrocard", 999, 1);
    }
  }

  /** The narration schedule before rounding, clip by clip in order, and the length of the
      recording, are what the script says. */
  lemma ScheduleFollowsScript(demo: Demo)
    ensures Clips(demo) == Narration(Parts(demo), 1.0) && Duration(demo) == 1.0 + Length(Parts(demo))
  {
    forall i | 0 <= i < |Plan(demo)| ensures Gives(Plan(demo)[i], Parts(demo)[i]) {
      PlanGives(demo, i);
    }
    assert |Plan(demo)| == |Parts(demo)|;
    BlocksGive(Plan(demo), Parts(demo), 1.0);
  }

  // ---- the warnings --------------------------------------------------------------------------------

  predicate HoldAlert(cfg: Config, card: Card, scene: int, beat: int, w: Warning) {
    var held := HeldFor(cfg, card, scene, beat);
    held > card.hold && w == HoldExtended(scene, beat, card.hold, held)
  }

  ghost predicate SceneAlert(cfg: Config, scene: Scene, w: Warning) {
    || (exists i :: i < |scene.beats| && Clash(cfg, scene, i, w))
    || (ScreenSeconds(cfg, scene) > scene.screen && w == ScreenExtended(scene.n, scene.screen, ScreenSeconds(cfg, scene)))
  }

  /** The warnings about the title card, the checklist, each scene and the outro card. */
  ghost predicate AlertAt(demo: Demo, i: nat, w: Warning)
    requires i < 3 + |demo.scenes|
  {
    if i == 0 then HoldAlert(demo.cfg, demo.titleCard, 0, 1, w)
    else if i == 1 then HoldAlert(demo.cfg, demo.checklist, 0, 2, w)
    else if i < 2 + |demo.scenes| then SceneAlert(demo.cfg, demo.scenes[i - 2], w)
    else HoldAlert(demo.cfg, demo.outroCard, 999, 1, w)
  }

  lemma {:induction false} FlaggedByBlock(blocks: seq<Block>, w: Warning)
    ensures w in Flagged(blocks) <==> exists i :: 0 <= i < |blocks| && w in blocks[i].warnings
  {
    if blocks != [] {
      var before, last := blocks[..|blocks| - 1], blocks[|blocks| - 1];
      FlaggedByBlock(before, w);
      if w in last.warnings { assert w in blocks[|blocks| - 1].warnings; }
      if i :| 0 <= i < |before| && w in before[i].warnings { assert w in blocks[i].warnings; }
    }
  }

  lemma CardAlerts(cfg: Config, card: Card, command: string, scene: int, beat: int, w: Warning)
    ensures w in CardBlock(cfg, card, command, scene, beat).warnings <==> HoldAlert(cfg, card, scene, beat, w)
  {
    HeldIsFitted(cfg, card, scene, beat);
  }

  lemma SceneAlerts(cfg: Config, scene: Scene, w: Warning)
    ensures w in SceneBlock(cfg, scene).warnings <==> SceneAlert(cfg, scene, w)
  {
    OverlapsExactly(cfg, scene, |scene.beats|, w);
  }

  lemma PlanAlerts(demo: Demo, i: nat, w: Warning)
    requires i < |Plan(demo)|
    ensures w in Plan(demo)[i].warnings <==> AlertAt(demo, i, w)
  {
    PlanAt(demo, i);
    if i == 0 {
      CardAlerts(demo.cfg, demo.titleCard, "titlecard", 0, 1, w);
    } else if i == 1 {
      CardAlerts(demo.cfg, demo.checklist, "progress 0", 0, 2, w);
    } else if i < 2 + |demo.scenes| {
      SceneAlerts(demo.cfg, demo.scenes[i - 2], w);
    } else {
      CardAlerts(demo.cfg, demo.outroCard, "outrocard", 999, 1, w);
    }
  }

  /** Exactly the extended holds, the overlapping beats and the extended screens are warned of. */
  lemma WarningsExactly(demo: Demo, w: Warning)
    ensures w in Flagged(Plan(demo)) <==> exists i :: 0 <= i < 3 + |demo.scenes| && AlertAt(demo, i, w)
  {
    var plan := Plan(demo);
    FlaggedByBlock(plan, w);
    forall i | 0 <= i < |plan| ensures w in plan[i].warnings <==> AlertAt(demo, i, w) {
      PlanAlerts(demo, i, w);
    }
  }
}

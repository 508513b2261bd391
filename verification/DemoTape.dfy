/** The demo compiler: scenes in, a terminal-recorder tape and a narration
    schedule out.  The compiler keeps its own clock; here the tape has an
    interpreter, and the two are proved to agree.  Times are exact reals. */
module DemoTape {
  import opened Prelude
  import opened Text

  // ---- the tape and what a recording of it takes -------------------------------

  datatype Cmd =
    | Note                           // comment, blank line, or a setting without effect on time
    | SetTypingSpeed(ms: int)
    | Type(text: string)
    | Enter
    | Sleep(seconds: real)
    | Hide
    | Show

  datatype Screen = Screen(visible: bool, ms: int, clock: real)

  /** Typing costs its length times the typing speed and Sleep its value, both only
      while the recording is visible; everything else is instantaneous. */
  function Play1(c: Cmd, s: Screen): Screen {
    match c
    case Note => s
    case SetTypingSpeed(ms) => s.(ms := ms)
    case Type(text) => if s.visible then s.(clock := s.clock + TypingSeconds(text, s.ms)) else s
    case Enter => s
    case Sleep(x) => if s.visible then s.(clock := s.clock + x) else s
    case Hide => s.(visible := false)
    case Show => s.(visible := true)
  }

  function Play(tape: seq<Cmd>, s: Screen): Screen {
    if tape == [] then s else Play1(tape[|tape| - 1], Play(tape[..|tape| - 1], s))
  }

  lemma {:induction false} PlayConcat(a: seq<Cmd>, b: seq<Cmd>, s: Screen)
    ensures Play(a + b, s) == Play(b, Play(a, s))
  {
    if b == [] {
      assert a + b == a;
    } else {
      assert (a + b)[..|a + b| - 1] == a + b[..|b| - 1];
      PlayConcat(a, b[..|b| - 1], s);
    }
  }

  lemma PlayOne(tape: seq<Cmd>, c: Cmd, s: Screen)
    ensures Play(tape + [c], s) == Play1(c, Play(tape, s))
  {
    assert (tape + [c])[..|tape|] == tape;
  }

  lemma Play2(a: Cmd, b: Cmd, s: Screen)
    ensures Play([a, b], s) == Play1(b, Play1(a, s))
  {
    PlayOne([], a, s);
    PlayOne([a], b, s);
    assert [] + [a] == [a] && [a] + [b] == [a, b];
  }

  lemma Play3(a: Cmd, b: Cmd, c: Cmd, s: Screen)
    ensures Play([a, b, c], s) == Play1(c, Play1(b, Play1(a, s)))
  {
    Play2(a, b, s);
    PlayOne([a, b], c, s);
    assert [a, b] + [c] == [a, b, c];
  }

  lemma Play4(a: Cmd, b: Cmd, c: Cmd, d: Cmd, s: Screen)
    ensures Play([a, b, c, d], s) == Play1(d, Play1(c, Play1(b, Play1(a, s))))
  {
    Play3(a, b, c, s);
    PlayOne([a, b, c], d, s);
    assert [a, b, c] + [d] == [a, b, c, d];
  }

  // ---- the demo description ----------------------------------------------------

  datatype Beat = Beat(offset: real, text: string)

  datatype Scene = Scene(n: int, title: string, screen: real, command: string, beats: seq<Beat>)

  /** An empty narration is an absent one. */
  datatype Card = Card(hold: real, narration: string)

  datatype Config = Config(ms: int, cps: real, buffer: real, durations: map<(int, int), real>)

  datatype SetupStep = SetupStep(run: string, wait: real)

  datatype Demo = Demo(
    activate: string,         // typed while hidden
    sourceHelpers: string,    // typed while hidden
    cfg: Config,
    setup: seq<SetupStep>,
    titleCard: Card,
    checklist: Card,
    scenes: seq<Scene>,
    outroCard: Card)

  const HEADLINE_HOLD := 2.5
  const PROGRESS_HOLD := 2.5
  const PRE_ROLL := 1.0
  const COMMAND_TYPE_LAG := 1.0

  /** Each keystroke takes the typing speed. */
  function TypingSeconds(text: string, ms: int): real {
    if text == "" then 0.0 else TypingSeconds(text[1..], ms) + ms as real / 1000.0
  }

  /** Typing costs length times speed. */
  lemma {:induction false} TypingIsLengthTimesSpeed(text: string, ms: int)
    ensures TypingSeconds(text, ms) == |text| as real * ms as real / 1000.0
  {
    if text != "" {
      TypingIsLengthTimesSpeed(text[1..], ms);
      assert |text| as real * ms as real == |text[1..]| as real * ms as real + ms as real;
    }
  }

  function AudioSeconds(cfg: Config, scene: int, beat: int, text: string): real {
    if (scene, beat) in cfg.durations then cfg.durations[(scene, beat)]
    else if cfg.cps > 0.0 then Estimate(text, 1.0 / cfg.cps)
    else 0.0
  }

  /** Each character is spoken in `each` seconds. */
  function Estimate(text: string, each: real): real {
    if text == "" then 0.0 else Estimate(text[1..], each) + each
  }

  /** The estimate is the text's length over the speaking rate. */
  lemma {:induction false} EstimateIsLengthOverRate(text: string, cps: real)
    requires cps > 0.0
    ensures Estimate(text, 1.0 / cps) == |text| as real / cps
  {
    if text != "" {
      EstimateIsLengthOverRate(text[1..], cps);
      assert |text| as real / cps == (|text[1..]| as real + 1.0) / cps;
    }
  }

  datatype Warning =
    | HoldExtended(scene: int, beat: int, declared: real, required: real)
    | BeatOverlap(scene: int, beat: int, offset: real, previousEnd: real)
    | ScreenExtended(scene: int, declared: real, required: real)

  /** A narration clip at its exact place on the visible clock. */
  datatype Clip = Clip(scene: int, beat: int, start: real, text: string)

  function ClipSeconds(cfg: Config, c: Clip): real {
    AudioSeconds(cfg, c.scene, c.beat, c.text)
  }

  // ---- what each part of the demo contributes ------------------------------------

  function FitHold(cfg: Config, card: Card, scene: int, beat: int): real {
    var text := Strip(card.narration);
    if text == "" then card.hold
    else
      var required := AudioSeconds(cfg, scene, beat, text) + cfg.buffer;
      if required > card.hold then required else card.hold
  }

  function HoldWarnings(cfg: Config, card: Card, scene: int, beat: int): seq<Warning> {
    var text := Strip(card.narration);
    var required := AudioSeconds(cfg, scene, beat, text) + cfg.buffer;
    if text == "" || required <= card.hold then [] else [HoldExtended(scene, beat, card.hold, required)]
  }

  /** End of beat `i` (counted from 0) relative to the scene's output. */
  function BeatEnd(cfg: Config, scene: Scene, i: nat): real
    requires i < |scene.beats|
  {
    scene.beats[i].offset + AudioSeconds(cfg, scene.n, i + 1, Strip(scene.beats[i].text))
  }

  /** The latest end of the first `k` beats, never before the output itself. */
  function LatestEnd(cfg: Config, scene: Scene, k: nat): (r: real)
    requires k <= |scene.beats|
    ensures r >= 0.0
    ensures forall i :: 0 <= i < k ==> BeatEnd(cfg, scene, i) <= r
    ensures r == 0.0 || exists i :: 0 <= i < k && BeatEnd(cfg, scene, i) == r
  {
    if k == 0 then 0.0
    else
      var before := LatestEnd(cfg, scene, k - 1);
      if BeatEnd(cfg, scene, k - 1) > before then BeatEnd(cfg, scene, k - 1) else before
  }

  function OverlapWarnings(cfg: Config, scene: Scene, k: nat): seq<Warning>
    requires k <= |scene.beats|
  {
    if k == 0 then []
    else OverlapWarnings(cfg, scene, k - 1) +
         if k > 1 && scene.beats[k - 1].offset < BeatEnd(cfg, scene, k - 2)
         then [BeatOverlap(scene.n, k, scene.beats[k - 1].offset, BeatEnd(cfg, scene, k - 2))] else []
  }

  function RequiredScreen(cfg: Config, scene: Scene): real {
    var latest := LatestEnd(cfg, scene, |scene.beats|);
    if latest > 0.0 then latest + cfg.buffer else scene.screen
  }

  function ScreenSeconds(cfg: Config, scene: Scene): real {
    if RequiredScreen(cfg, scene) > scene.screen then RequiredScreen(cfg, scene) else scene.screen
  }

  function SceneWarnings(cfg: Config, scene: Scene): seq<Warning> {
    OverlapWarnings(cfg, scene, |scene.beats|) +
    if RequiredScreen(cfg, scene) > scene.screen
    then [ScreenExtended(scene.n, scene.screen, RequiredScreen(cfg, scene))] else []
  }

  function Headline(scene: Scene): string {
    "headline " + Decimal(scene.n) + " \"" + scene.title + "\""
  }

  function Progress(scene: Scene): string {
    "progress " + Decimal(scene.n)
  }

  /** The scene up to the point where its command starts to print. */
  function SceneLead(scene: Scene): seq<Cmd> {
    [ Note, Note, Note,
      Type(Headline(scene)), Enter, Sleep(HEADLINE_HOLD),
      Hide, Type("clear"), Enter, Show,
      Type(scene.command), Sleep(COMMAND_TYPE_LAG), Enter ]
  }

  function OutputOffset(scene: Scene, ms: int): real {
    TypingSeconds(Headline(scene), ms) + HEADLINE_HOLD + TypingSeconds(scene.command, ms) + COMMAND_TYPE_LAG
  }

  function SceneClips(scene: Scene, outputAt: real, k: nat): (clips: seq<Clip>)
    requires k <= |scene.beats|
    ensures |clips| == k
  {
    if k == 0 then []
    else SceneClips(scene, outputAt, k - 1) +
         [Clip(scene.n, k, outputAt + scene.beats[k - 1].offset, Strip(scene.beats[k - 1].text))]
  }

  lemma {:induction false} SceneClipAt(scene: Scene, outputAt: real, k: nat, i: nat)
    requires i < k <= |scene.beats|
    ensures SceneClips(scene, outputAt, k)[i]
         == Clip(scene.n, i + 1, outputAt + scene.beats[i].offset, Strip(scene.beats[i].text))
  {
    if i < k - 1 { SceneClipAt(scene, outputAt, k - 1, i); }
  }

  /** A card or a scene: the tape up to the moment its output shows, the designed
      Sleep, and the rest; with the times the compiler computed for it.  Clip starts
      are relative to the block's own start. */
  datatype Block = Block(
    lead: seq<Cmd>,
    hold: real,
    rest: seq<Cmd>,
    outputAt: real,
    seconds: real,
    clips: seq<Clip>,
    warnings: seq<Warning>)
  {
    function Tape(): seq<Cmd> {
      lead + [Sleep(hold)] + rest
    }
  }

  function CardBlock(cfg: Config, card: Card, command: string, scene: int, beat: int): Block {
    var hold := FitHold(cfg, card, scene, beat);
    var shownAt := TypingSeconds(command, cfg.ms);
    Block([Note, Note, Type(command), Enter], hold, [], shownAt, shownAt + hold,
          if card.narration == "" then [] else [Clip(scene, beat, shownAt, Strip(card.narration))],
          HoldWarnings(cfg, card, scene, beat))
  }

  /** `_scene_block` with the narration of the scene. */
  function SceneBlock(cfg: Config, scene: Scene): Block {
    var screen := ScreenSeconds(cfg, scene);
    var outputAt := OutputOffset(scene, cfg.ms);
    Block(SceneLead(scene), screen, [Type(Progress(scene)), Enter, Sleep(PROGRESS_HOLD)],
          outputAt, outputAt + screen + TypingSeconds(Progress(scene), cfg.ms) + PROGRESS_HOLD,
          SceneClips(scene, outputAt, |scene.beats|),
          SceneWarnings(cfg, scene))
  }

  function TitleBlock(demo: Demo): Block {
    CardBlock(demo.cfg, demo.titleCard, "titlecard", 0, 1)
  }

  function ChecklistBlock(demo: Demo): Block {
    CardBlock(demo.cfg, demo.checklist, "progress 0", 0, 2)
  }

  function OutroBlock(demo: Demo): Block {
    CardBlock(demo.cfg, demo.outroCard, "outrocard", 999, 1)
  }

  function SceneBlocks(cfg: Config, scenes: seq<Scene>): seq<Block> {
    seq(|scenes|, i requires 0 <= i < |scenes| => SceneBlock(cfg, scenes[i]))
  }

  /** Title card, checklist, the scenes, outro card. */
  function Plan(demo: Demo): seq<Block> {
    [TitleBlock(demo), ChecklistBlock(demo)] + SceneBlocks(demo.cfg, demo.scenes) + [OutroBlock(demo)]
  }

  // ---- folds over the blocks --------------------------------------------------------

  function Tapes(blocks: seq<Block>): seq<Cmd> {
    if blocks == [] then [] else Tapes(blocks[..|blocks| - 1]) + blocks[|blocks| - 1].Tape()
  }

  function Seconds(blocks: seq<Block>): real {
    if blocks == [] then 0.0 else Seconds(blocks[..|blocks| - 1]) + blocks[|blocks| - 1].seconds
  }

  function Moved(clips: seq<Clip>, shift: real): seq<Clip> {
    seq(|clips|, i requires 0 <= i < |clips| => clips[i].(start := shift + clips[i].start))
  }

  /** All clips, with the first block starting at `t`. */
  function Placed(blocks: seq<Block>, t: real): seq<Clip> {
    if blocks == [] then []
    else
      var before := blocks[..|blocks| - 1];
      Placed(before, t) + Moved(blocks[|blocks| - 1].clips, t + Seconds(before))
  }

  function Flagged(blocks: seq<Block>): seq<Warning> {
    if blocks == [] then [] else Flagged(blocks[..|blocks| - 1]) + blocks[|blocks| - 1].warnings
  }

  function SetupTape(setup: seq<SetupStep>): seq<Cmd> {
    if setup == [] then []
    else
      var last := setup[|setup| - 1];
      SetupTape(setup[..|setup| - 1]) + [Type(last.run), Enter, Sleep(last.wait)]
  }

  function Header(demo: Demo): seq<Cmd> {
    [ Note, Note, SetTypingSpeed(demo.cfg.ms), Hide,
      Type(demo.activate), Enter, Sleep(0.5), Type(demo.sourceHelpers), Enter, Sleep(0.5) ]
  }

  const INSTALL := [ Type("_replay_install"), Enter, Sleep(0.2), Type("clear"), Enter, Sleep(0.3),
                     Show, Note, Note, Sleep(PRE_ROLL) ]

  function Opening(demo: Demo): seq<Cmd> {
    Header(demo) + SetupTape(demo.setup) + INSTALL
  }

  function FullTape(demo: Demo): seq<Cmd> {
    Opening(demo) + Tapes(Plan(demo))
  }

  /** The compiler's final clock. */
  function Duration(demo: Demo): real {
    PRE_ROLL + Seconds(Plan(demo))
  }

  function Clips(demo: Demo): seq<Clip> {
    Placed(Plan(demo), PRE_ROLL)
  }

  // ---- rounding and sorting --------------------------------------------------------

  /** round(x, 3): to the nearest thousandth, ties to the even one. */
  function Round3(x: real): real {
    var m := x * 1000.0;
    var low := m.Floor;
    var d := m - low as real;
    var n := if d < 0.5 || (d == 0.5 && low % 2 == 0) then low else low + 1;
    n as real / 1000.0
  }

  lemma Round3Near(x: real)
    ensures x - 0.0005 <= Round3(x) <= x + 0.0005
  {
  }

  lemma Round3Monotone(x: real, y: real)
    requires x <= y
    ensures Round3(x) <= Round3(y)
  {
    var a, b := x * 1000.0, y * 1000.0;
    assert a <= b && a.Floor <= b.Floor;
  }

  datatype NarrationBeat = NarrationBeat(scene: int, beat: int, at: real, text: string)

  function Rounded(c: Clip): NarrationBeat {
    NarrationBeat(c.scene, c.beat, Round3(c.start), c.text)
  }

  function RoundedAll(clips: seq<Clip>): seq<NarrationBeat> {
    seq(|clips|, i requires 0 <= i < |clips| => Rounded(clips[i]))
  }

  /** A stable sort on the timestamp. */
  function Insert(b: NarrationBeat, s: seq<NarrationBeat>): seq<NarrationBeat> {
    if s == [] || b.at <= s[0].at then [b] + s else [s[0]] + Insert(b, s[1..])
  }

  function Sort(s: seq<NarrationBeat>): seq<NarrationBeat> {
    if s == [] then [] else Insert(s[0], Sort(s[1..]))
  }

  predicate InOrder(s: seq<NarrationBeat>) {
    forall i, j :: 0 <= i < j < |s| ==> s[i].at <= s[j].at
  }

  lemma {:induction false} InsertKeeps(b: NarrationBeat, s: seq<NarrationBeat>)
    ensures multiset(Insert(b, s)) == multiset(s) + multiset{b}
  {
    if s == [] || b.at <= s[0].at {
      assert multiset([b] + s) == multiset{b} + multiset(s);
    } else {
      var rest := s[1..];
      InsertKeeps(b, rest);
      assert multiset([s[0]] + rest) == multiset{s[0]} + multiset(rest) && s == [s[0]] + rest;
      assert multiset([s[0]] + Insert(b, rest)) == multiset{s[0]} + multiset(Insert(b, rest));
    }
  }

  lemma {:induction false} InsertSorts(b: NarrationBeat, s: seq<NarrationBeat>)
    requires InOrder(s)
    ensures InOrder(Insert(b, s))
  {
    if s != [] && b.at > s[0].at {
      var rest := s[1..];
      InsertSorts(b, rest);
      InsertKeeps(b, rest);
      var r := Insert(b, rest);
      forall i | 0 <= i < |r| ensures s[0].at <= r[i].at {
        AtLeast(b, rest, r, s[0].at, i);
      }
      PrependInOrder(s[0], r);
    }
  }

  lemma AtLeast(b: NarrationBeat, rest: seq<NarrationBeat>, r: seq<NarrationBeat>, low: real, i: nat)
    requires multiset(r) == multiset(rest) + multiset{b} && i < |r|
    requires low <= b.at && forall j :: 0 <= j < |rest| ==> low <= rest[j].at
    ensures low <= r[i].at
  {
    assert r[i] in multiset(r);
    if r[i] != b {
      assert r[i] in multiset(rest);
    }
  }

  lemma PrependInOrder(first: NarrationBeat, r: seq<NarrationBeat>)
    requires InOrder(r) && forall i :: 0 <= i < |r| ==> first.at <= r[i].at
    ensures InOrder([first] + r)
  {
  }

  /** The manifest lists every clip exactly once, by time. */
  lemma {:induction false} SortSorts(s: seq<NarrationBeat>)
    ensures InOrder(Sort(s))
    ensures multiset(Sort(s)) == multiset(s)
  {
    if s != [] {
      SortSorts(s[1..]);
      InsertSorts(s[0], Sort(s[1..]));
      InsertKeeps(s[0], Sort(s[1..]));
      assert s == [s[0]] + s[1..];
    }
  }

  lemma {:induction false} SortKeepsOrder(s: seq<NarrationBeat>)
    requires InOrder(s)
    ensures Sort(s) == s
  {
    if s != [] {
      SortKeepsOrder(s[1..]);
      assert s == [s[0]] + s[1..];
    }
  }

  function Manifest(demo: Demo): seq<NarrationBeat> {
    Sort(RoundedAll(Clips(demo)))
  }

  // ---- compiler correctness ----------------------------------------------------------

  predicate Visible(s: Screen, ms: int, t: real) {
    s == Screen(true, ms, t)
  }

  lemma PlayLead(scene: Scene, s: Screen)
    requires s.visible
    ensures Visible(Play(SceneLead(scene), s), s.ms, s.clock + OutputOffset(scene, s.ms))
  {
    var notes := [Note, Note, Note];
    var head := [Type(Headline(scene)), Enter, Sleep(HEADLINE_HOLD)];
    var clear := [Hide, Type("clear"), Enter, Show];
    var cmd := [Type(scene.command), Sleep(COMMAND_TYPE_LAG), Enter];
    assert SceneLead(scene) == notes + head + clear + cmd;
    PlayConcat(notes + head + clear, cmd, s);
    PlayConcat(notes + head, clear, s);
    PlayConcat(notes, head, s);
    Play3(Note, Note, Note, s);
    Play3(Type(Headline(scene)), Enter, Sleep(HEADLINE_HOLD), s);
    var s1 := s.(clock := s.clock + TypingSeconds(Headline(scene), s.ms) + HEADLINE_HOLD);
    assert Play(notes + head, s) == s1;
    Play4(Hide, Type("clear"), Enter, Show, s1);
    Play3(Type(scene.command), Sleep(COMMAND_TYPE_LAG), Enter, s1);
  }

  /** A block's own times are what its tape takes when played from a visible screen. */
  predicate Plays(b: Block, s: Screen) {
    && Visible(Play(b.lead, s), s.ms, s.clock + b.outputAt)
    && Visible(Play(b.Tape(), s), s.ms, s.clock + b.seconds)
  }

  lemma CardPlays(cfg: Config, card: Card, command: string, scene: int, beat: int, s: Screen)
    requires s.visible && s.ms == cfg.ms
    ensures Plays(CardBlock(cfg, card, command, scene, beat), s)
  {
    var b := CardBlock(cfg, card, command, scene, beat);
    assert b.Tape() == b.lead + [Sleep(b.hold)];
    Play4(Note, Note, Type(command), Enter, s);
    PlayOne(b.lead, Sleep(b.hold), s);
  }

  lemma PlaySceneEnd(scene: Scene, screen: real, s: Screen)
    requires s.visible
    ensures Visible(Play([Sleep(screen)] + [Type(Progress(scene)), Enter, Sleep(PROGRESS_HOLD)], s), s.ms,
                    s.clock + screen + TypingSeconds(Progress(scene), s.ms) + PROGRESS_HOLD)
  {
    Play4(Sleep(screen), Type(Progress(scene)), Enter, Sleep(PROGRESS_HOLD), s);
    assert [Sleep(screen)] + [Type(Progress(scene)), Enter, Sleep(PROGRESS_HOLD)]
        == [Sleep(screen), Type(Progress(scene)), Enter, Sleep(PROGRESS_HOLD)];
  }

  lemma ScenePlays(cfg: Config, scene: Scene, s: Screen)
    requires s.visible && s.ms == cfg.ms
    ensures Plays(SceneBlock(cfg, scene), s)
  {
    var b := SceneBlock(cfg, scene);
    assert b.Tape() == b.lead + ([Sleep(b.hold)] + b.rest);
    PlayLead(scene, s);
    PlayConcat(b.lead, [Sleep(b.hold)] + b.rest, s);
    PlaySceneEnd(scene, b.hold, Play(b.lead, s));
  }

  lemma BlockPlays(demo: Demo, i: nat, s: Screen)
    requires i < |Plan(demo)| && s.visible && s.ms == demo.cfg.ms
    ensures Plays(Plan(demo)[i], s)
  {
    PlanAt(demo, i);
    if i == 0 {
      CardPlays(demo.cfg, demo.titleCard, "titlecard", 0, 1, s);
    } else if i == 1 {
      CardPlays(demo.cfg, demo.checklist, "progress 0", 0, 2, s);
    } else if i < 2 + |demo.scenes| {
      ScenePlays(demo.cfg, demo.scenes[i - 2], s);
    } else {
      CardPlays(demo.cfg, demo.outroCard, "outrocard", 999, 1, s);
    }
  }

  /** Hidden commands cost nothing. */
  lemma {:induction false} PlayHidden(tape: seq<Cmd>, s: Screen)
    requires !s.visible
    requires forall i :: 0 <= i < |tape| ==> !tape[i].Show? && !tape[i].SetTypingSpeed?
    ensures Play(tape, s) == s
  {
    if tape != [] { PlayHidden(tape[..|tape| - 1], s); }
  }

  lemma {:induction false} SetupStaysHidden(setup: seq<SetupStep>)
    ensures forall i :: 0 <= i < |SetupTape(setup)| ==> !SetupTape(setup)[i].Show? && !SetupTape(setup)[i].SetTypingSpeed?
  {
    if setup != [] { SetupStaysHidden(setup[..|setup| - 1]); }
  }

  const START := Screen(true, 50, 0.0)

  lemma PlayOpening(demo: Demo)
    ensures Visible(Play(Opening(demo), START), demo.cfg.ms, PRE_ROLL)
  {
    var header := Header(demo);
    var visible, hidden := header[..4], header[4..];
    assert header == visible + hidden;
    Play4(header[0], header[1], header[2], header[3], START);
    assert visible == [header[0], header[1], header[2], header[3]];
    var hiddenTail, shown := INSTALL[..6], INSTALL[6..];
    SetupStaysHidden(demo.setup);
    var dark := hidden + SetupTape(demo.setup) + hiddenTail;
    assert Opening(demo) == visible + dark + shown;
    PlayConcat(visible + dark, shown, START);
    PlayConcat(visible, dark, START);
    var s := Screen(false, demo.cfg.ms, 0.0);
    PlayHidden(dark, s);
    assert shown == [INSTALL[6], INSTALL[7], INSTALL[8], INSTALL[9]];
    Play4(INSTALL[6], INSTALL[7], INSTALL[8], INSTALL[9], s);
  }

  ghost predicate AllPlay(blocks: seq<Block>, ms: int) {
    forall i, s: Screen {:trigger Plays(blocks[i], s)} ::
      0 <= i < |blocks| && s.visible && s.ms == ms ==> Plays(blocks[i], s)
  }

  lemma PlanPlays(demo: Demo)
    ensures AllPlay(Plan(demo), demo.cfg.ms)
  {
    forall i, s: Screen | 0 <= i < |Plan(demo)| && s.visible && s.ms == demo.cfg.ms ensures Plays(Plan(demo)[i], s) {
      BlockPlays(demo, i, s);
    }
  }

  lemma AllPlayPrefix(blocks: seq<Block>, ms: int, k: nat)
    requires AllPlay(blocks, ms) && k <= |blocks|
    ensures AllPlay(blocks[..k], ms)
  {
    forall i, s: Screen | 0 <= i < k && s.visible && s.ms == ms ensures Plays(blocks[..k][i], s) {
      assert Plays(blocks[i], s);
    }
  }

  lemma TapePlays(b: Block, before: seq<Cmd>, s: Screen, t: real)
    requires Visible(Play(before, s), s.ms, t) && Plays(b, Play(before, s))
    ensures Visible(Play(before + b.Tape(), s), s.ms, t + b.seconds)
    ensures Visible(Play(before + b.lead, s), s.ms, t + b.outputAt)
  {
    PlayConcat(before, b.Tape(), s);
    PlayConcat(before, b.lead, s);
  }

  lemma {:induction false} PlayBlocks(blocks: seq<Block>, s: Screen)
    requires s.visible && AllPlay(blocks, s.ms)
    ensures Visible(Play(Tapes(blocks), s), s.ms, s.clock + Seconds(blocks))
  {
    if blocks != [] {
      var before := blocks[..|blocks| - 1];
      AllPlayPrefix(blocks, s.ms, |blocks| - 1);
      PlayBlocks(before, s);
      TapePlays(blocks[|blocks| - 1], Tapes(before), s, s.clock + Seconds(before));
    }
  }

  /** Recording the emitted tape takes exactly as long as the compiler computed. */
  lemma TapeTakesComputedTime(demo: Demo)
    ensures Visible(Play(FullTape(demo), START), demo.cfg.ms, Duration(demo))
  {
    PlayOpening(demo);
    PlanPlays(demo);
    PlayConcat(Opening(demo), Tapes(Plan(demo)), START);
    PlayBlocks(Plan(demo), Play(Opening(demo), START));
  }

  // ---- where each block's output and each clip really is ---------------------------------

  /** The tape up to the Enter that makes block `i` show its output. */
  function TapeToOutput(opening: seq<Cmd>, blocks: seq<Block>, i: nat): seq<Cmd>
    requires i < |blocks|
  {
    opening + Tapes(blocks[..i]) + blocks[i].lead
  }

  /** ... and on to the end of its designed Sleep. */
  function TapeToHoldEnd(opening: seq<Cmd>, blocks: seq<Block>, i: nat): seq<Cmd>
    requires i < |blocks|
  {
    TapeToOutput(opening, blocks, i) + [Sleep(blocks[i].hold)]
  }

  /** The tape clock when the output of block `i` shows, and when its hold ends. */
  function OutputClock(demo: Demo, i: nat): real
    requires i < |Plan(demo)|
  {
    Play(TapeToOutput(Opening(demo), Plan(demo), i), START).clock
  }

  function HoldEndClock(demo: Demo, i: nat): real
    requires i < |Plan(demo)|
  {
    Play(TapeToHoldEnd(Opening(demo), Plan(demo), i), START).clock
  }

  lemma {:induction false} TapesPrefix(blocks: seq<Block>, i: nat)
    requires i < |blocks|
    ensures Tapes(blocks[..i]) + blocks[i].Tape() <= Tapes(blocks)
  {
    if i < |blocks| - 1 {
      TapesPrefix(blocks[..|blocks| - 1], i);
      assert blocks[..|blocks| - 1][..i] == blocks[..i];
    }
  }

  lemma Regroup(a: seq<Cmd>, b: seq<Cmd>, c: seq<Cmd>, d: seq<Cmd>, e: seq<Cmd>)
    ensures a + b + c + d + e == a + (b + (c + d + e))
  {
  }

  lemma PrefixUnder(a: seq<Cmd>, b: seq<Cmd>, c: seq<Cmd>)
    requires b <= c
    ensures a + b <= a + c
  {
  }

  /** That prefix, and then the block's remaining commands, really are in the tape. */
  lemma OutputInTape(opening: seq<Cmd>, blocks: seq<Block>, i: nat)
    requires i < |blocks|
    ensures TapeToHoldEnd(opening, blocks, i) + blocks[i].rest <= opening + Tapes(blocks)
  {
    TapesPrefix(blocks, i);
    var b, earlier := blocks[i], Tapes(blocks[..i]);
    calc {
      TapeToHoldEnd(opening, blocks, i) + b.rest;
      (((opening + earlier) + b.lead) + [Sleep(b.hold)]) + b.rest;
      { Regroup(opening, earlier, b.lead, [Sleep(b.hold)], b.rest); }
      opening + (earlier + b.Tape());
    }
    PrefixUnder(opening, earlier + b.Tape(), Tapes(blocks));
  }

  lemma ClockAtOutput(opening: seq<Cmd>, blocks: seq<Block>, i: nat, ms: int, t: real)
    requires i < |blocks| && AllPlay(blocks, ms) && Visible(Play(opening, START), ms, t)
    ensures Play(TapeToOutput(opening, blocks, i), START).clock == t + Seconds(blocks[..i]) + blocks[i].outputAt
    ensures Play(TapeToHoldEnd(opening, blocks, i), START).clock
         == Play(TapeToOutput(opening, blocks, i), START).clock + blocks[i].hold
  {
    var before := opening + Tapes(blocks[..i]);
    AllPlayPrefix(blocks, ms, i);
    PlayConcat(opening, Tapes(blocks[..i]), START);
    PlayBlocks(blocks[..i], Play(opening, START));
    PlayConcat(before, blocks[i].lead, START);
    assert Plays(blocks[i], Play(before, START));
    PlayOne(TapeToOutput(opening, blocks, i), Sleep(blocks[i].hold), START);
  }

  /** The recorder's clock agrees with the compiler's at every block's output. */
  lemma OutputClockIsComputed(demo: Demo, i: nat)
    requires i < |Plan(demo)|
    ensures TapeToHoldEnd(Opening(demo), Plan(demo), i) + Plan(demo)[i].rest <= FullTape(demo)
    ensures OutputClock(demo, i) == PRE_ROLL + Seconds(Plan(demo)[..i]) + Plan(demo)[i].outputAt
    ensures HoldEndClock(demo, i) == OutputClock(demo, i) + Plan(demo)[i].hold
  {
    PlayOpening(demo);
    PlanPlays(demo);
    OutputInTape(Opening(demo), Plan(demo), i);
    ClockAtOutput(Opening(demo), Plan(demo), i, demo.cfg.ms, PRE_ROLL);
  }

  /** Index in the clip list of the first clip of block `i`. */
  function FirstClip(blocks: seq<Block>, i: nat): nat
    requires i <= |blocks|
  {
    |Placed(blocks[..i], 0.0)|
  }

  lemma {:induction false} PlacedLength(blocks: seq<Block>, t: real, u: real)
    ensures |Placed(blocks, t)| == |Placed(blocks, u)|
  {
    if blocks != [] { PlacedLength(blocks[..|blocks| - 1], t, u); }
  }

  lemma {:induction false} PlacedAt(blocks: seq<Block>, t: real, i: nat, k: nat)
    requires i < |blocks| && k < |blocks[i].clips|
    ensures FirstClip(blocks, i) + k < |Placed(blocks, t)|
    ensures Placed(blocks, t)[FirstClip(blocks, i) + k]
         == blocks[i].clips[k].(start := t + Seconds(blocks[..i]) + blocks[i].clips[k].start)
  {
    var before := blocks[..|blocks| - 1];
    if i < |blocks| - 1 {
      PlacedAt(before, t, i, k);
      assert before[..i] == blocks[..i];
    } else {
      PlacedLength(before, 0.0, t);
    }
  }

  lemma ScenePlan(demo: Demo, i: nat)
    requires i < |demo.scenes|
    ensures i + 2 < |Plan(demo)| && Plan(demo)[i + 2] == SceneBlock(demo.cfg, demo.scenes[i])
  {
  }

  /** A clip that its block places `offset` after its output starts that long after
      the output on the tape clock too, and is in the manifest, rounded. */
  lemma BlockClip(opening: seq<Cmd>, blocks: seq<Block>, i: nat, k: nat, ms: int, t: real, c: Clip, offset: real)
    requires i < |blocks| && k < |blocks[i].clips| && AllPlay(blocks, ms) && Visible(Play(opening, START), ms, t)
    requires blocks[i].clips[k] == c.(start := blocks[i].outputAt + offset)
    ensures var at := Play(TapeToOutput(opening, blocks, i), START).clock + offset;
            && c.(start := at) in Placed(blocks, t)
            && NarrationBeat(c.scene, c.beat, Round3(at), c.text) in Sort(RoundedAll(Placed(blocks, t)))
            && at - 0.0005 <= Round3(at) <= at + 0.0005
  {
    ClockAtOutput(opening, blocks, i, ms, t);
    PlacedAt(blocks, t, i, k);
    var n := FirstClip(blocks, i) + k;
    Round3Near(Placed(blocks, t)[n].start);
    InManifest(Placed(blocks, t), n);
  }

  /** Beat `k` of the scene is a clip at `at`, and in the manifest within half a millisecond of it. */
  predicate BeatPlaced(scene: Scene, k: nat, at: real, clips: seq<Clip>, manifest: seq<NarrationBeat>)
    requires k < |scene.beats|
  {
    && Clip(scene.n, k + 1, at, Strip(scene.beats[k].text)) in clips
    && NarrationBeat(scene.n, k + 1, Round3(at), Strip(scene.beats[k].text)) in manifest
    && at - 0.0005 <= Round3(at) <= at + 0.0005
  }

  lemma PlaceBeat(scene: Scene, k: nat, opening: seq<Cmd>, blocks: seq<Block>, j: nat, ms: int, at: real)
    requires j < |blocks| && k < |scene.beats| && k < |blocks[j].clips|
    requires AllPlay(blocks, ms) && Visible(Play(opening, START), ms, PRE_ROLL)
    requires blocks[j].clips[k]
          == Clip(scene.n, k + 1, blocks[j].outputAt + scene.beats[k].offset, Strip(scene.beats[k].text))
    requires at == Play(TapeToOutput(opening, blocks, j), START).clock + scene.beats[k].offset
    ensures BeatPlaced(scene, k, at, Placed(blocks, PRE_ROLL), Sort(RoundedAll(Placed(blocks, PRE_ROLL))))
  {
    BlockClip(opening, blocks, j, k, ms, PRE_ROLL,
              Clip(scene.n, k + 1, 0.0, Strip(scene.beats[k].text)), scene.beats[k].offset);
  }

  /** Each scene beat sits at the tape clock where its scene starts to print plus its
      offset, and its manifest entry is within half a millisecond of that, however
      many scenes came before. */
  lemma BeatPlacement(demo: Demo, i: nat, k: nat) returns (at: real)
    requires i < |demo.scenes| && k < |demo.scenes[i].beats|
    ensures i + 2 < |Plan(demo)|
    ensures at == OutputClock(demo, i + 2) + demo.scenes[i].beats[k].offset
    ensures BeatPlaced(demo.scenes[i], k, at, Clips(demo), Manifest(demo))
  {
    PlanClip(demo, i, k);
    at := OutputClock(demo, i + 2) + demo.scenes[i].beats[k].offset;
    PlayOpening(demo);
    PlanPlays(demo);
    PlaceBeat(demo.scenes[i], k, Opening(demo), Plan(demo), i + 2, demo.cfg.ms, at);
  }

  lemma PlanClip(demo: Demo, i: nat, k: nat)
    requires i < |demo.scenes| && k < |demo.scenes[i].beats|
    ensures i + 2 < |Plan(demo)| && k < |Plan(demo)[i + 2].clips|
    ensures var beat := demo.scenes[i].beats[k];
            Plan(demo)[i + 2].clips[k]
            == Clip(demo.scenes[i].n, k + 1, Plan(demo)[i + 2].outputAt + beat.offset, Strip(beat.text))
  {
    ScenePlan(demo, i);
    SceneClipShape(demo.cfg, demo.scenes[i], k);
  }

  lemma SceneClipShape(cfg: Config, scene: Scene, k: nat)
    requires k < |scene.beats|
    ensures var b := SceneBlock(cfg, scene);
            && |b.clips| == |scene.beats|
            && b.clips[k] == Clip(scene.n, k + 1, b.outputAt + scene.beats[k].offset, Strip(scene.beats[k].text))
  {
    SceneClipAt(scene, SceneBlock(cfg, scene).outputAt, |scene.beats|, k);
  }

  lemma InManifest(clips: seq<Clip>, n: nat)
    requires n < |clips|
    ensures clips[n] in clips && Rounded(clips[n]) in Sort(RoundedAll(clips))
  {
    var r := RoundedAll(clips);
    SortSorts(r);
    assert r[n] in multiset(r);
    assert r[n] in multiset(Sort(r));
  }

  // ---- schedule safety ------------------------------------------------------------------

  /** Every scene beat that ends after the output starts ends at least the buffer
      before the hold ends, which is when `progress` is typed. */
  lemma SceneClipFits(demo: Demo, i: nat, k: nat)
    requires i < |demo.scenes| && k < |demo.scenes[i].beats|
    requires BeatEnd(demo.cfg, demo.scenes[i], k) > 0.0
    ensures i + 2 < |Plan(demo)|
    ensures Plan(demo)[i + 2].rest == [Type(Progress(demo.scenes[i])), Enter, Sleep(PROGRESS_HOLD)]
    ensures OutputClock(demo, i + 2) + BeatEnd(demo.cfg, demo.scenes[i], k) + demo.cfg.buffer <= HoldEndClock(demo, i + 2)
  {
    ScenePlan(demo, i);
    OutputClockIsComputed(demo, i + 2);
    assert LatestEnd(demo.cfg, demo.scenes[i], |demo.scenes[i].beats|) >= BeatEnd(demo.cfg, demo.scenes[i], k);
  }

  /** A card clip ends at least the buffer before its hold does, exactly when its
      narration is not blank or happens to fit the declared hold anyway.  (A blank
      narration with a recorded duration is the case the compiler overlooks.) */
  lemma CardClipFits(cfg: Config, card: Card, command: string, scene: int, beat: int)
    requires card.narration != ""
    ensures var b := CardBlock(cfg, card, command, scene, beat);
            && |b.clips| == 1
            && (b.clips[0].start + ClipSeconds(cfg, b.clips[0]) + cfg.buffer <= b.outputAt + b.hold
                <==> !Blank(card.narration) || ClipSeconds(cfg, b.clips[0]) + cfg.buffer <= card.hold)
  {
    StripBlank(card.narration);
  }

  /** Clips that lie between `lo` and `hi`, each ending before the next starts. */
  ghost predicate Chain(cfg: Config, clips: seq<Clip>, lo: real, hi: real) {
    && lo <= hi
    && (forall i :: 0 <= i < |clips| ==> lo <= clips[i].start && clips[i].start + ClipSeconds(cfg, clips[i]) <= hi)
    && (forall i, j :: 0 <= i < j < |clips| ==> clips[i].start + ClipSeconds(cfg, clips[i]) <= clips[j].start)
  }

  lemma ChainConcat(cfg: Config, a: seq<Clip>, b: seq<Clip>, lo: real, mid: real, hi: real)
    requires Chain(cfg, a, lo, mid) && Chain(cfg, b, mid, hi)
    ensures Chain(cfg, a + b, lo, hi)
  {
    forall i, j | 0 <= i < j < |a + b|
      ensures (a + b)[i].start + ClipSeconds(cfg, (a + b)[i]) <= (a + b)[j].start
    {
      if i < |a| <= j {
        assert a[i].start + ClipSeconds(cfg, a[i]) <= mid <= b[j - |a|].start;
      }
    }
    forall i | 0 <= i < |a + b|
      ensures lo <= (a + b)[i].start && (a + b)[i].start + ClipSeconds(cfg, (a + b)[i]) <= hi
    {
      if i < |a| { assert lo <= a[i].start; } else { assert mid <= b[i - |a|].start; }
    }
  }

  /** A block whose clips stay inside it, disjoint and in order. */
  ghost predicate Tidy(cfg: Config, b: Block) {
    Chain(cfg, b.clips, 0.0, b.seconds)
  }

  lemma MovedChain(cfg: Config, clips: seq<Clip>, seconds: real, shift: real)
    requires Chain(cfg, clips, 0.0, seconds)
    ensures Chain(cfg, Moved(clips, shift), shift, shift + seconds)
  {
    var m := Moved(clips, shift);
    assert forall i :: 0 <= i < |m| ==> m[i].start == shift + clips[i].start && ClipSeconds(cfg, m[i]) == ClipSeconds(cfg, clips[i]);
  }

  lemma {:induction false} PlacedChain(cfg: Config, blocks: seq<Block>, t: real)
    requires forall i :: 0 <= i < |blocks| ==> Tidy(cfg, blocks[i])
    ensures Chain(cfg, Placed(blocks, t), t, t + Seconds(blocks))
  {
    if blocks != [] {
      var before, last := blocks[..|blocks| - 1], blocks[|blocks| - 1];
      PlacedChain(cfg, before, t);
      assert Tidy(cfg, last);
      MovedChain(cfg, last.clips, last.seconds, t + Seconds(before));
      ChainConcat(cfg, Placed(before, t), Moved(last.clips, t + Seconds(before)),
                  t, t + Seconds(before), t + Seconds(blocks));
    }
  }

  ghost predicate SaneConfig(cfg: Config) {
    cfg.ms >= 0 && cfg.buffer >= 0.0 && forall k :: k in cfg.durations ==> cfg.durations[k] >= 0.0
  }

  ghost predicate SaneScene(scene: Scene) {
    scene.screen >= 0.0 && forall k :: 0 <= k < |scene.beats| ==> scene.beats[k].offset >= 0.0
  }

  /** The declared hold is not negative, and a blank narration leaves no clip that outlasts it. */
  ghost predicate SaneCard(cfg: Config, card: Card, scene: int, beat: int) {
    card.hold >= 0.0
    && (Blank(card.narration) && card.narration != "" ==> AudioSeconds(cfg, scene, beat, "") + cfg.buffer <= card.hold)
  }

  ghost predicate Sane(demo: Demo) {
    && SaneConfig(demo.cfg)
    && SaneCard(demo.cfg, demo.titleCard, 0, 1)
    && SaneCard(demo.cfg, demo.checklist, 0, 2)
    && SaneCard(demo.cfg, demo.outroCard, 999, 1)
    && forall i :: 0 <= i < |demo.scenes| ==> SaneScene(demo.scenes[i])
  }

  predicate OverlapFree(warnings: seq<Warning>) {
    forall i :: 0 <= i < |warnings| ==> !warnings[i].BeatOverlap?
  }

  lemma AudioNonNegative(cfg: Config, scene: int, beat: int, text: string)
    requires SaneConfig(cfg)
    ensures AudioSeconds(cfg, scene, beat, text) >= 0.0
  {
    if cfg.cps > 0.0 { EstimateNonNegative(text, 1.0 / cfg.cps); }
  }

  lemma {:induction false} EstimateNonNegative(text: string, each: real)
    requires each >= 0.0
    ensures Estimate(text, each) >= 0.0
  {
    if text != "" { EstimateNonNegative(text[1..], each); }
  }

  lemma {:induction false} TypingNonNegative(text: string, ms: int)
    requires ms >= 0
    ensures TypingSeconds(text, ms) >= 0.0
  {
    if text != "" { TypingNonNegative(text[1..], ms); }
  }

  lemma CardTidy(cfg: Config, card: Card, command: string, scene: int, beat: int)
    requires SaneConfig(cfg) && SaneCard(cfg, card, scene, beat)
    ensures Tidy(cfg, CardBlock(cfg, card, command, scene, beat))
  {
    TypingNonNegative(command, cfg.ms);
    StripBlank(card.narration);
    AudioNonNegative(cfg, scene, beat, Strip(card.narration));
    if card.narration != "" { CardClipFits(cfg, card, command, scene, beat); }
  }

  lemma OverlapReported(cfg: Config, scene: Scene, i: nat)
    requires 1 <= i < |scene.beats| && scene.beats[i].offset < BeatEnd(cfg, scene, i - 1)
    ensures !OverlapFree(OverlapWarnings(cfg, scene, i + 1))
  {
    assert OverlapWarnings(cfg, scene, i + 1)[|OverlapWarnings(cfg, scene, i)|].BeatOverlap?;
  }

  lemma {:induction false} NoOverlapMeans(cfg: Config, scene: Scene, k: nat, i: nat)
    requires k <= |scene.beats| && OverlapFree(OverlapWarnings(cfg, scene, k)) && 1 <= i < k
    ensures BeatEnd(cfg, scene, i - 1) <= scene.beats[i].offset
  {
    var last := OverlapWarnings(cfg, scene, k);
    var before := OverlapWarnings(cfg, scene, k - 1);
    if i < k - 1 {
      assert forall n :: 0 <= n < |before| ==> last[n] == before[n];
      NoOverlapMeans(cfg, scene, k - 1, i);
    } else if scene.beats[i].offset < BeatEnd(cfg, scene, i - 1) {
      OverlapReported(cfg, scene, i);
    }
  }

  lemma {:induction false} EarlierBeatsEnd(cfg: Config, scene: Scene, i: nat, j: nat)
    requires i < j < |scene.beats| && OverlapFree(OverlapWarnings(cfg, scene, |scene.beats|))
    requires SaneConfig(cfg)
    ensures BeatEnd(cfg, scene, i) <= scene.beats[j].offset
    decreases j
  {
    NoOverlapMeans(cfg, scene, |scene.beats|, j);
    if i < j - 1 {
      EarlierBeatsEnd(cfg, scene, i, j - 1);
      AudioNonNegative(cfg, scene.n, j, Strip(scene.beats[j - 1].text));
    }
  }

  lemma SceneSpan(cfg: Config, scene: Scene)
    requires SaneConfig(cfg) && SaneScene(scene)
    ensures var b := SceneBlock(cfg, scene);
            && 0.0 <= b.outputAt
            && b.outputAt + LatestEnd(cfg, scene, |scene.beats|) <= b.seconds
  {
    TypingNonNegative(Headline(scene), cfg.ms);
    TypingNonNegative(scene.command, cfg.ms);
    TypingNonNegative(Progress(scene), cfg.ms);
  }

  lemma SceneTidy(cfg: Config, scene: Scene)
    requires SaneConfig(cfg) && SaneScene(scene)
    requires OverlapFree(OverlapWarnings(cfg, scene, |scene.beats|))
    ensures Tidy(cfg, SceneBlock(cfg, scene))
  {
    SceneSpan(cfg, scene);
    var out, clips := OutputOffset(scene, cfg.ms), SceneBlock(cfg, scene).clips;
    BeatsChain(cfg, scene, out, SceneBlock(cfg, scene).seconds);
  }

  lemma BeatBounds(cfg: Config, scene: Scene, out: real, seconds: real, i: nat)
    requires SaneScene(scene) && i < |scene.beats|
    requires 0.0 <= out && out + LatestEnd(cfg, scene, |scene.beats|) <= seconds
    ensures var c := SceneClips(scene, out, |scene.beats|)[i];
            && 0.0 <= c.start == out + scene.beats[i].offset
            && c.start + ClipSeconds(cfg, c) == out + BeatEnd(cfg, scene, i) <= seconds
  {
    SceneClipAt(scene, out, |scene.beats|, i);
    assert BeatEnd(cfg, scene, i) <= LatestEnd(cfg, scene, |scene.beats|);
  }

  lemma BeatsChain(cfg: Config, scene: Scene, out: real, seconds: real)
    requires SaneConfig(cfg) && SaneScene(scene)
    requires OverlapFree(OverlapWarnings(cfg, scene, |scene.beats|))
    requires 0.0 <= out && out + LatestEnd(cfg, scene, |scene.beats|) <= seconds
    ensures Chain(cfg, SceneClips(scene, out, |scene.beats|), 0.0, seconds)
  {
    var clips := SceneClips(scene, out, |scene.beats|);
    forall i | 0 <= i < |clips|
      ensures 0.0 <= clips[i].start && clips[i].start + ClipSeconds(cfg, clips[i]) <= seconds
    {
      BeatBounds(cfg, scene, out, seconds, i);
    }
    forall i, j | 0 <= i < j < |clips|
      ensures clips[i].start + ClipSeconds(cfg, clips[i]) <= clips[j].start
    {
      BeatBounds(cfg, scene, out, seconds, i);
      BeatBounds(cfg, scene, out, seconds, j);
      EarlierBeatsEnd(cfg, scene, i, j);
    }
  }

  lemma {:induction false} FlaggedParts(blocks: seq<Block>, i: nat)
    requires i < |blocks| && OverlapFree(Flagged(blocks))
    ensures OverlapFree(blocks[i].warnings)
  {
    var before, last := blocks[..|blocks| - 1], blocks[|blocks| - 1];
    var f := Flagged(before);
    assert forall n :: 0 <= n < |f| ==> Flagged(blocks)[n] == f[n];
    assert forall n :: 0 <= n < |last.warnings| ==> Flagged(blocks)[|f| + n] == last.warnings[n];
    if i < |blocks| - 1 { FlaggedParts(before, i); }
  }

  lemma SceneBlockTidy(cfg: Config, scene: Scene)
    requires SaneConfig(cfg) && SaneScene(scene) && OverlapFree(SceneWarnings(cfg, scene))
    ensures Tidy(cfg, SceneBlock(cfg, scene))
  {
    var overlaps := OverlapWarnings(cfg, scene, |scene.beats|);
    assert forall n :: 0 <= n < |overlaps| ==> SceneWarnings(cfg, scene)[n] == overlaps[n];
    SceneTidy(cfg, scene);
  }

  lemma PlanAt(demo: Demo, i: nat)
    requires i < |Plan(demo)|
    ensures Plan(demo)[i] == if i == 0 then TitleBlock(demo)
                             else if i == 1 then ChecklistBlock(demo)
                             else if i < 2 + |demo.scenes| then SceneBlock(demo.cfg, demo.scenes[i - 2])
                             else OutroBlock(demo)
  {
  }

  lemma PlanTidy(demo: Demo, i: nat)
    requires Sane(demo) && OverlapFree(Flagged(Plan(demo))) && i < |Plan(demo)|
    ensures Tidy(demo.cfg, Plan(demo)[i])
  {
    FlaggedParts(Plan(demo), i);
    PlanAt(demo, i);
    if i == 0 {
      CardTidy(demo.cfg, demo.titleCard, "titlecard", 0, 1);
    } else if i == 1 {
      CardTidy(demo.cfg, demo.checklist, "progress 0", 0, 2);
    } else if i < 2 + |demo.scenes| {
      SceneBlockTidy(demo.cfg, demo.scenes[i - 2]);
    } else {
      CardTidy(demo.cfg, demo.outroCard, "outrocard", 999, 1);
    }
  }

  /** With no overlap warning, all clips of the recording are disjoint, in order, and
      inside it; rounding then keeps the order, so the manifest is the emission order. */
  lemma ClipsNeverOverlap(demo: Demo)
    requires Sane(demo) && OverlapFree(Flagged(Plan(demo)))
    ensures Chain(demo.cfg, Clips(demo), PRE_ROLL, Duration(demo))
    ensures Manifest(demo) == RoundedAll(Clips(demo))
  {
    forall i | 0 <= i < |Plan(demo)| ensures Tidy(demo.cfg, Plan(demo)[i]) { PlanTidy(demo, i); }
    PlacedChain(demo.cfg, Plan(demo), PRE_ROLL);
    ChainKeepsOrder(demo.cfg, Clips(demo), PRE_ROLL, Duration(demo));
  }

  lemma ChainKeepsOrder(cfg: Config, clips: seq<Clip>, lo: real, hi: real)
    requires SaneConfig(cfg) && Chain(cfg, clips, lo, hi)
    ensures Sort(RoundedAll(clips)) == RoundedAll(clips)
  {
    var r := RoundedAll(clips);
    forall i, j | 0 <= i < j < |r| ensures r[i].at <= r[j].at {
      AudioNonNegative(cfg, clips[i].scene, clips[i].beat, clips[i].text);
      Round3Monotone(clips[i].start, clips[j].start);
    }
    SortKeepsOrder(r);
  }

  // ---- the compiler as the source runs it --------------------------------------------------

  datatype Compiled = Compiled(lines: seq<Cmd>, narration: seq<NarrationBeat>, seconds: real, warnings: seq<Warning>)

  method FitHoldLoudly(cfg: Config, card: Card, scene: int, beat: int, warnings: seq<Warning>)
    returns (hold: real, warnings': seq<Warning>)
    // never shorter than declared, long enough for the narration, and no longer than that
    ensures hold >= card.hold
    ensures !Blank(card.narration) ==> AudioSeconds(cfg, scene, beat, Strip(card.narration)) + cfg.buffer <= hold
    ensures hold == card.hold ||
            (!Blank(card.narration) && hold == AudioSeconds(cfg, scene, beat, Strip(card.narration)) + cfg.buffer)
    // an extension is warned of, and nothing else
    ensures warnings' == warnings + if hold > card.hold then [HoldExtended(scene, beat, card.hold, hold)] else []
    ensures hold == FitHold(cfg, card, scene, beat)
    ensures warnings' == warnings + HoldWarnings(cfg, card, scene, beat)
  {
    StripBlank(card.narration);
    hold, warnings' := card.hold, warnings;
    if Strip(card.narration) == "" { return; }
    var required := AudioSeconds(cfg, scene, beat, Strip(card.narration)) + cfg.buffer;
    if required > card.hold {
      warnings' := warnings' + [HoldExtended(scene, beat, card.hold, required)];
      hold := required;
    }
  }

  /** The beats of one scene: where the last one ends, and which ones overlap. */
  method CheckBeats(cfg: Config, scene: Scene, warnings: seq<Warning>) returns (latest: real, warnings': seq<Warning>)
    ensures latest == LatestEnd(cfg, scene, |scene.beats|)
    ensures warnings' == warnings + OverlapWarnings(cfg, scene, |scene.beats|)
  {
    latest, warnings' := 0.0, warnings;
    for i := 0 to |scene.beats|
      invariant latest == LatestEnd(cfg, scene, i)
      invariant warnings' == warnings + OverlapWarnings(cfg, scene, i)
    {
      var offset, end := scene.beats[i].offset, BeatEnd(cfg, scene, i);
      latest := if end > latest then end else latest;
      if i > 0 {
        var previousEnd := BeatEnd(cfg, scene, i - 1);
        if offset < previousEnd {
          warnings' := warnings' + [BeatOverlap(scene.n, i + 1, offset, previousEnd)];
        }
      }
    }
  }

  method FitScreen(cfg: Config, scene: Scene, warnings: seq<Warning>) returns (screen: real, warnings': seq<Warning>)
    // never shorter than declared, long enough for every beat, and no longer than that
    ensures screen >= scene.screen
    ensures forall k :: 0 <= k < |scene.beats| && BeatEnd(cfg, scene, k) > 0.0 ==> BeatEnd(cfg, scene, k) + cfg.buffer <= screen
    ensures screen == scene.screen ||
            exists k :: 0 <= k < |scene.beats| && BeatEnd(cfg, scene, k) > 0.0 && screen == BeatEnd(cfg, scene, k) + cfg.buffer
    // the overlaps, and an extension, are warned of, and nothing else
    ensures warnings' == warnings + OverlapWarnings(cfg, scene, |scene.beats|)
                         + if screen > scene.screen then [ScreenExtended(scene.n, scene.screen, screen)] else []
    ensures screen == ScreenSeconds(cfg, scene)
    ensures warnings' == warnings + SceneWarnings(cfg, scene)
  {
    var latest;
    latest, warnings' := CheckBeats(cfg, scene, warnings);
    var required := if latest > 0.0 then latest + cfg.buffer else scene.screen;
    if required > scene.screen {
      warnings' := warnings' + [ScreenExtended(scene.n, scene.screen, required)];
      screen := required;
    } else {
      screen := scene.screen;
    }
  }

  /** One card: heading, command, hold, and its clip if it has a narration. */
  method CompileCard(cfg: Config, card: Card, command: string, scene: int, beat: int)
    returns (b: Block)
    ensures b == CardBlock(cfg, card, command, scene, beat)
  {
    var hold, warnings := FitHoldLoudly(cfg, card, scene, beat, []);
    var shownAt := TypingSeconds(command, cfg.ms);
    var clips := if card.narration != "" then [Clip(scene, beat, shownAt, Strip(card.narration))] else [];
    b := Block([Note, Note, Type(command), Enter], hold, [], shownAt, shownAt + hold, clips, warnings);
  }

  /** One turn of the scene loop. */
  method CompileScene(cfg: Config, scene: Scene) returns (b: Block)
    ensures b == SceneBlock(cfg, scene)
  {
    var screen, warnings := FitScreen(cfg, scene, []);
    var outputAt := OutputOffset(scene, cfg.ms);
    var clips: seq<Clip> := [];
    for k := 0 to |scene.beats|
      invariant clips == SceneClips(scene, outputAt, k)
    {
      clips := clips + [Clip(scene.n, k + 1, outputAt + scene.beats[k].offset, Strip(scene.beats[k].text))];
    }
    var seconds := outputAt + screen + TypingSeconds(Progress(scene), cfg.ms) + PROGRESS_HOLD;
    b := Block(SceneLead(scene), screen, [Type(Progress(scene)), Enter, Sleep(PROGRESS_HOLD)], outputAt, seconds, clips, warnings);
  }

  method CompileOpening(demo: Demo) returns (lines: seq<Cmd>)
    ensures lines == Opening(demo)
  {
    lines := Header(demo);
    for i := 0 to |demo.setup|
      invariant lines == Header(demo) + SetupTape(demo.setup[..i])
    {
      assert demo.setup[..i + 1][..i] == demo.setup[..i];
      lines := lines + [Type(demo.setup[i].run), Enter, Sleep(demo.setup[i].wait)];
    }
    assert demo.setup[..|demo.setup|] == demo.setup;
    lines := lines + INSTALL;
  }

  /** What the pass has produced so far: tape, clips, warnings, clock. */
  class Pass {
    var lines: seq<Cmd>
    var clips: seq<Clip>
    var warnings: seq<Warning>
    var t: real
    ghost var done: seq<Block>
    ghost const opening: seq<Cmd>

    ghost predicate Valid()
      reads this
    {
      && lines == opening + Tapes(done) && clips == Placed(done, PRE_ROLL)
      && warnings == Flagged(done) && t == PRE_ROLL + Seconds(done)
    }

    constructor (lines: seq<Cmd>)
      ensures Valid() && done == [] && opening == lines
    {
      this.lines, this.clips, this.warnings, this.t := lines, [], [], PRE_ROLL;
      this.done, this.opening := [], lines;
    }

    /** Append one block at the current clock, and move the clock past it. */
    method Emit(b: Block)
      requires Valid()
      modifies this
      ensures Valid() && done == old(done) + [b]
    {
      ghost var before := done;
      done := done + [b];
      assert done[..|before|] == before;
      lines := lines + b.Tape();
      clips := clips + Moved(b.clips, t);
      warnings := warnings + b.warnings;
      t := t + b.seconds;
    }
  }

  method CompileBlocks(demo: Demo) returns (blocks: seq<Block>)
    ensures blocks == Plan(demo)
  {
    var title := CompileCard(demo.cfg, demo.titleCard, "titlecard", 0, 1);
    var checklist := CompileCard(demo.cfg, demo.checklist, "progress 0", 0, 2);
    var scenes := CompileScenes(demo.cfg, demo.scenes);
    var outro := CompileCard(demo.cfg, demo.outroCard, "outrocard", 999, 1);
    blocks := [title, checklist] + scenes + [outro];
  }

  method CompileScenes(cfg: Config, scenes: seq<Scene>) returns (blocks: seq<Block>)
    ensures blocks == SceneBlocks(cfg, scenes)
  {
    blocks := [];
    for i := 0 to |scenes|
      invariant blocks == SceneBlocks(cfg, scenes)[..i]
    {
      var b := CompileScene(cfg, scenes[i]);
      blocks := blocks + [b];
    }
    assert SceneBlocks(cfg, scenes)[..|scenes|] == SceneBlocks(cfg, scenes);
  }

  method EmitBlocks(blocks: seq<Block>, pass: Pass)
    requires pass.Valid() && pass.done == []
    modifies pass
    ensures pass.Valid() && pass.done == blocks
  {
    for i := 0 to |blocks|
      invariant pass.Valid() && pass.done == blocks[..i]
    {
      pass.Emit(blocks[i]);
      assert blocks[..i + 1] == blocks[..i] + [blocks[i]];
    }
    assert blocks[..|blocks|] == blocks;
  }

  /** `compile_demo`: the tape, the clip list, the warnings and the clock grow block by block. */
  method CompileDemo(demo: Demo) returns (r: Compiled)
    ensures r == Compiled(FullTape(demo), Manifest(demo), Round3(Duration(demo)), Flagged(Plan(demo)))
  {
    var opening := CompileOpening(demo);
    var blocks := CompileBlocks(demo);
    var pass := new Pass(opening);
    EmitBlocks(blocks, pass);
    r := Compiled(pass.lines, Sort(RoundedAll(pass.clips)), Round3(pass.t), pass.warnings);
  }
}

/**
 * generate_communities.py: 100 communities, one per entry of a fixed name list, each with a
 * randomly chosen genre and a randomly chosen description template filled with that genre,
 * written as one INSERT line each with the values single-quoted.
 */
module GenerateCommunities {

  import opened Text
  import opened SeedData

  /** The fixed community names, in list order ("Bassline Brotherhood" is listed twice). */
  const Names: seq<string> :=
    Names0 + Names1 + Names2 + Names3 + Names4
    + Names5 + Names6 + Names7 + Names8 + Names9

  // The names in blocks of ten, each small enough for the solver to read whole.
  const Names0: seq<string> := [
    "Harmonic Horizons",
    "Sonic Syndicate",
    "Rhythm Reverie",
    "The Groove Circle",
    "The Melody Makers",
    "Beatwave Collective",
    "Crescendo Crew",
    "Soul Sync Society",
    "Acoustic Alliance",
    "Soundwave Junction"
  ]
  const Names1: seq<string> := [
    "Echo Ensemble",
    "The Jazz Haven",
    "Tempo Tribe",
    "Fusion Frequencies",
    "Vibe Vault",
    "The Keynote Collective",
    "Serenade Society",
    "The Beatnik Brigade",
    "Chord Connectors",
    "Sonic Bloom"
  ]
  const Names2: seq<string> := [
    "Melody Caravan",
    "Cosmic Choir",
    "Bassline Brotherhood",
    "Pulse Pioneers",
    "Rhythm Nomads",
    "The Acoustic Ambassadors",
    "Syncopation Syndicate",
    "Treble Trails",
    "Tone Tinkerers",
    "Harmony Hangout"
  ]
  const Names3: seq<string> := [
    "Groove Architects",
    "Songcraft Society",
    "Frequency Frontier",
    "Dreamtone Collective",
    "Riff & Rhythm Assembly",
    "Vinyl Vanguards",
    "The Tempo Travelers",
    "Sound Striders",
    "Harmonic Pilgrims",
    "Lyrical Legends"
  ]
  const Names4: seq<string> := [
    "The Chord Explorers",
    "Synthwave Sanctuary",
    "The Beat Bazaar",
    "Echo Chamber Union",
    "Sonic Architects",
    "The Crescendo Coalition",
    "Serenade Seekers",
    "Songbird Syndicate",
    "Groove Nomads",
    "Frequency Friends"
  ]
  const Names5: seq<string> := [
    "Tone Explorers",
    "Bassline Bound",
    "Melody Nexus",
    "Jazz Odyssey",
    "Rhythm & Roots Collective",
    "The Harmonic Hub",
    "Synthwave Trailblazers",
    "The Beat Haven",
    "Chord Caravan",
    "Sonic Fusion Society"
  ]
  const Names6: seq<string> := [
    "Serenade Travelers",
    "Sound Sphere Assembly",
    "The Vibe Collective",
    "Acoustic Elevation",
    "Frequency Nomads",
    "The Tempo Syndicate",
    "Harmonic Odyssey",
    "Bassline Explorers",
    "Groove Sphere",
    "Tone Wanderers"
  ]
  const Names7: seq<string> := [
    "Riff Collective",
    "Serenade Junction",
    "The Jazz Syndicate",
    "Sonic Expedition",
    "The Groove Nexus",
    "Melodic Adventures",
    "Pulse Explorers",
    "The Crescendo Syndicate",
    "Chord & Cadence Crew",
    "Frequency Travelers"
  ]
  const Names8: seq<string> := [
    "Echo Odyssey",
    "Acoustic Navigators",
    "Harmonic Explorers",
    "Groovebound Collective",
    "Bassline Brotherhood",
    "The Melody Travelers",
    "Rhythm Realm",
    "Jazz Voyager Society",
    "The Tone Caravan",
    "Sound Haven Society"
  ]
  const Names9: seq<string> := [
    "Pulse Patterns Collective",
    "Echo & Rhythm Assembly",
    "The Groove Garden",
    "Acoustic Chronicles",
    "Melody Wanderers",
    "Tempo Travelers Union",
    "Sonic Wavefront",
    "Serenade Society Junction",
    "Harmonic Hikers",
    "Soundwave Explorers"
  ]

  /** The fixed genres `random.choice` picks from. */
  const Genres: seq<string> := [
    "Jazz",
    "Classical",
    "Hip-Hop",
    "Electronic",
    "Folk",
    "Blues",
    "Rock",
    "Pop",
    "Reggae",
    "Indie",
    "Country",
    "Metal",
    "Synthwave",
    "R&B",
    "World Music"
  ]

  const Placeholder := "{genre}"

  /** Each description template, as the text before and after its single `{genre}` field. */
  const Templates: seq<(string, string)> := [
    Template0, Template1, Template2, Template3, Template4,
    Template5, Template6, Template7, Template8, Template9
  ]

  const Template0: (string, string) := ("A vibrant group celebrating the " + "roots and rhythms of ", ".")
  const Template1: (string, string) := ("Where musicians explore " + "innovative ", " fusion projects.")
  const Template2: (string, string) := ("Dedicated to preserving the " + "traditions and sounds of ", ".")
  const Template3: (string, string) := ("An experimental community " + "redefining the future of ", ".")
  const Template4: (string, string) := ("Connecting global fans and " + "creators of ", ".")
  const Template5: (string, string) := ("Monthly jam sessions to dive " + "deep into ", " vibes.")
  const Template6: (string, string) := ("A hub for emerging artists in " + "the ", " scene.")
  const Template7: (string, string) := ("Focused on collaborative " + "projects that push the " + "boundaries of ", ".")
  const Template8: (string, string) := ("Join us for discussions on the " + "evolution of ", ".")
  const Template9: (string, string) := ("Live performances and workshops " + "for ", " enthusiasts.")

  /** The three lists the script draws from; the loops below work on any such lists. */
  datatype Pools = Pools(names: seq<string>, genres: seq<string>, templates: seq<(string, string)>)

  const Script := Pools(Names, Genres, Templates)

  /** A description template as written in the script, `{genre}` field included. */
  function TemplateText(template: (string, string)): string {
    template.0 + Placeholder + template.1
  }

  /** `str.format(genre=g)` for a template whose only replacement field is `{genre}`. */
  function FormatGenre(template: string, g: string): string
    decreases |template|
  {
    if |template| >= |Placeholder| && template[..|Placeholder|] == Placeholder then
      g + FormatGenre(template[|Placeholder|..], g)
    else if template == [] then []
    else [template[0]] + FormatGenre(template[1..], g)
  }

  lemma {:induction false} FormatPlainPrefix(pre: string, rest: string, g: string)
    requires '{' !in pre
    ensures FormatGenre(pre + rest, g) == pre + FormatGenre(rest, g)
  {
    if pre != [] {
      var s := pre + rest;
      assert s[0] == pre[0] != '{';
      assert s[1..] == pre[1..] + rest;
      FormatPlainPrefix(pre[1..], rest, g);
    } else {
      assert pre + rest == rest;
    }
  }

  /** Filling a template puts the genre where its field was and leaves the text around it as is. */
  lemma FormatFillsField(pre: string, post: string, g: string)
    requires '{' !in pre && '{' !in post
    ensures FormatGenre(TemplateText((pre, post)), g) == pre + g + post
  {
    FormatPlainPrefix(pre, Placeholder + post, g);
    assert (Placeholder + post)[..|Placeholder|] == Placeholder;
    assert (Placeholder + post)[|Placeholder|..] == post;
    FormatPlainPrefix(post, "", g);
    assert post + "" == post;
    assert TemplateText((pre, post)) == pre + (Placeholder + post);
  }

  /**
   * The draws of `random.choice` as indexes, in call order: a genre, then a template, on each of
   * the 100 iterations; `names[i]` for i below 100 needs at least 100 names.
   */
  predicate ValidChoices(p: Pools, draws: seq<int>) {
    |p.names| >= 100 && |draws| == 200 &&
    forall k :: 0 <= k < |draws| ==> 0 <= draws[k] < (if k % 2 == 0 then |p.genres| else |p.templates|)
  }

  /** Row i: `names[i]`, the i-th drawn genre, and the i-th drawn template formatted with that genre. */
  function Row(p: Pools, draws: seq<int>, i: nat): (r: (string, string, string))
    requires ValidChoices(p, draws) && i < 100
    ensures r.0 == p.names[i] && r.1 in p.genres
  {
    assert (2 * i) % 2 == 0 && (2 * i + 1) % 2 == 1;
    var g := p.genres[draws[2 * i]];
    (p.names[i], g, FormatGenre(TemplateText(p.templates[draws[2 * i + 1]]), g))
  }

  function Rows(p: Pools, draws: seq<int>): (r: seq<(string, string, string)>)
    requires ValidChoices(p, draws)
    ensures |r| == 100
    ensures forall i :: 0 <= i < 100 ==> r[i] == Row(p, draws, i)
  {
    seq(100, i requires 0 <= i < 100 => Row(p, draws, i))
  }

  /** The loop building `data`: `names[i]`, `random.choice(genres)`, then the formatted description. */
  method Assemble(p: Pools, draws: seq<int>) returns (data: seq<(string, string, string)>)
    requires ValidChoices(p, draws)
    ensures data == Rows(p, draws)
  {
    data := [];
    var i := 0;
    while i < 100
      invariant 0 <= i <= 100
      invariant |data| == i
      invariant forall j :: 0 <= j < i ==> data[j] == Row(p, draws, j)
    {
      assert (2 * i) % 2 == 0 && (2 * i + 1) % 2 == 1;
      var name := p.names[i];
      var genre := p.genres[draws[2 * i]];
      var description := FormatGenre(TemplateText(p.templates[draws[2 * i + 1]]), genre);
      data := data + [(name, genre, description)];
      i := i + 1;
    }
  }

  /** The text every INSERT opens with, up to the quote before the name. */
  const CommunitiesHead := "INSERT INTO Communities " + "(Name, Genre, Description) " + "VALUES ('"

  /** The INSERT for one row, every value between single quotes and nothing escaped. */
  function Statement(row: (string, string, string)): string {
    CommunitiesHead + row.0 + "', '" + row.1 + "', '" + row.2 + "');"
  }

  function Statements(rows: seq<(string, string, string)>): (r: seq<string>)
    ensures |r| == |rows|
    ensures forall i :: 0 <= i < |rows| ==> r[i] == Statement(rows[i])
  {
    seq(|rows|, i requires 0 <= i < |rows| => Statement(rows[i]))
  }

  /** The write loop: one line per row, no transaction framing. */
  method WriteRows(data: seq<(string, string, string)>) returns (text: string)
    ensures text == Lines(Statements(data))
  {
    text := "";
    var i := 0;
    while i < |data|
      invariant 0 <= i <= |data|
      invariant text == Lines(Statements(data[..i]))
    {
      assert Statements(data[..i + 1]) == Statements(data[..i]) + [Statement(data[i])];
      LinesSnoc(Statements(data[..i]), Statement(data[i]));
      text := text + Statement(data[i]) + "\n";
      i := i + 1;
    }
    assert data[..i] == data;
  }

  /** The whole script, on its own three lists. */
  method Generate(draws: seq<int>) returns (file: string)
    requires ValidChoices(Script, draws)
    ensures file == Lines(Statements(Rows(Script, draws)))
  {
    var data := Assemble(Script, draws);
    file := WriteRows(data);
  }

  /** A description is its template with the row's own genre where the field was. */
  lemma DescriptionUsesRowGenre(p: Pools, draws: seq<int>, i: nat)
    requires ValidChoices(p, draws) && i < 100
    requires forall t :: t in p.templates ==> '{' !in t.0 && '{' !in t.1
    ensures var r := Row(p, draws, i);
      exists t :: t in p.templates && r.2 == t.0 + r.1 + t.1
  {
    assert (2 * i) % 2 == 0 && (2 * i + 1) % 2 == 1;
    var t := p.templates[draws[2 * i + 1]];
    FormatFillsField(t.0, t.1, Row(p, draws, i).1);
  }

  /** No field holds a newline, so each row stays on one line of the file. */
  predicate OneLineRows(rows: seq<(string, string, string)>) {
    forall i :: 0 <= i < |rows| ==> '\n' !in rows[i].0 && '\n' !in rows[i].1 && '\n' !in rows[i].2
  }

  /** The file's lines are the INSERTs for the rows, in order, and it ends in a newline. */
  lemma CommunitiesFile(rows: seq<(string, string, string)>)
    requires OneLineRows(rows)
    ensures Split(Lines(Statements(rows)), '\n') == Statements(rows) + [""]
  {
    var stmts := Statements(rows);
    forall i | 0 <= i < |stmts| ensures '\n' !in stmts[i] {
      assert stmts[i] == Statement(rows[i]);
    }
    SplitLines(stmts, "");
    assert Lines(stmts) + "" == Lines(stmts);
  }

  /** No name in the list holds a newline. */
  predicate OneLineNames(names: seq<string>) {
    forall i :: 0 <= i < |names| ==> '\n' !in names[i]
  }

  lemma OneLineNamesAppend(a: seq<string>, b: seq<string>)
    requires OneLineNames(a) && OneLineNames(b)
    ensures OneLineNames(a + b)
  {
    forall i | 0 <= i < |a + b| ensures '\n' !in (a + b)[i] {
      if i >= |a| {
        assert (a + b)[i] == b[i - |a|];
      }
    }
  }

  lemma Names0OneLine() ensures OneLineNames(Names0) { }
  lemma Names1OneLine() ensures OneLineNames(Names1) { }
  lemma Names2OneLine() ensures OneLineNames(Names2) { }
  lemma Names3OneLine() ensures OneLineNames(Names3) { }
  lemma Names4OneLine() ensures OneLineNames(Names4) { }
  lemma Names5OneLine() ensures OneLineNames(Names5) { }
  lemma Names6OneLine() ensures OneLineNames(Names6) { }
  lemma Names7OneLine() ensures OneLineNames(Names7) { }
  lemma Names8OneLine() ensures OneLineNames(Names8) { }
  lemma Names9OneLine() ensures OneLineNames(Names9) { }

  /** None of the 100 names holds a newline. */
  lemma NamesOneLine()
    ensures |Names| == 100 && OneLineNames(Names)
  {
    Names0OneLine();
    Names1OneLine();
    Names2OneLine();
    Names3OneLine();
    Names4OneLine();
    Names5OneLine();
    Names6OneLine();
    Names7OneLine();
    Names8OneLine();
    Names9OneLine();
    OneLineNamesAppend(Names0, Names1);
    OneLineNamesAppend(Names0 + Names1, Names2);
    OneLineNamesAppend(Names0 + Names1 + Names2, Names3);
    OneLineNamesAppend(Names0 + Names1 + Names2 + Names3, Names4);
    OneLineNamesAppend(Names0 + Names1 + Names2 + Names3 + Names4, Names5);
    OneLineNamesAppend(Names0 + Names1 + Names2 + Names3 + Names4 + Names5, Names6);
    OneLineNamesAppend(Names0 + Names1 + Names2 + Names3 + Names4 + Names5 + Names6, Names7);
    OneLineNamesAppend(Names0 + Names1 + Names2 + Names3 + Names4 + Names5 + Names6 + Names7, Names8);
    OneLineNamesAppend(Names0 + Names1 + Names2 + Names3 + Names4 + Names5 + Names6 + Names7 + Names8, Names9);
  }

  /** No genre holds a newline. */
  lemma GenresOneLine()
    ensures forall g :: g in Genres ==> '\n' !in g
  {
  }

  /** Text with no brace, so no replacement field, and no newline. */
  predicate PlainPiece(s: string) {
    '{' !in s && '\n' !in s
  }

  predicate PlainTemplate(t: (string, string)) {
    PlainPiece(t.0) && PlainPiece(t.1)
  }

  lemma Template0Plain() ensures PlainTemplate(Template0) { }
  lemma Template1Plain() ensures PlainTemplate(Template1) { }
  lemma Template2Plain() ensures PlainTemplate(Template2) { }
  lemma Template3Plain() ensures PlainTemplate(Template3) { }
  lemma Template4Plain() ensures PlainTemplate(Template4) { }
  lemma Template5Plain() ensures PlainTemplate(Template5) { }
  lemma Template6Plain() ensures PlainTemplate(Template6) { }
  lemma Template7Plain() ensures PlainTemplate(Template7) { }
  lemma Template8Plain() ensures PlainTemplate(Template8) { }
  lemma Template9Plain() ensures PlainTemplate(Template9) { }

  /** The text around each template's field holds no brace and no newline. */
  lemma TemplatesPlain()
    ensures forall t :: t in Templates ==> PlainTemplate(t)
  {
    Template0Plain();
    Template1Plain();
    Template2Plain();
    Template3Plain();
    Template4Plain();
    Template5Plain();
    Template6Plain();
    Template7Plain();
    Template8Plain();
    Template9Plain();
  }

  /** On the script's own lists, each description is a template's text with the row's genre in its field. */
  lemma ScriptDescriptionUsesRowGenre(draws: seq<int>, i: nat)
    requires ValidChoices(Script, draws) && i < 100
    ensures var r := Row(Script, draws, i);
      exists t :: t in Templates && r.2 == t.0 + r.1 + t.1
  {
    TemplatesPlain();
    DescriptionUsesRowGenre(Script, draws, i);
  }

  /** On the script's own lists, no value holds a newline. */
  lemma ScriptRowsOneLine(draws: seq<int>)
    requires ValidChoices(Script, draws)
    ensures OneLineRows(Rows(Script, draws))
  {
    var rows := Rows(Script, draws);
    NamesOneLine();
    GenresOneLine();
    TemplatesPlain();
    forall i | 0 <= i < |rows|
      ensures '\n' !in rows[i].0 && '\n' !in rows[i].1 && '\n' !in rows[i].2
    {
      ScriptDescriptionUsesRowGenre(draws, i);
      var t :| t in Templates && rows[i].2 == t.0 + rows[i].1 + t.1;
      assert PlainTemplate(t);
    }
  }

  /** The script's file: one line per community, the INSERTs in name order, then a final newline. */
  lemma ScriptFile(draws: seq<int>)
    requires ValidChoices(Script, draws)
    ensures Split(Lines(Statements(Rows(Script, draws))), '\n') == Statements(Rows(Script, draws)) + [""]
  {
    ScriptRowsOneLine(draws);
    CommunitiesFile(Rows(Script, draws));
  }

  /** No dedupe: a name listed twice gives two rows, so two INSERTs that open with it. */
  lemma RepeatedNameKept(p: Pools, draws: seq<int>, i: nat, j: nat)
    requires ValidChoices(p, draws)
    requires i < j < 100 && p.names[i] == p.names[j]
    ensures var stmts := Statements(Rows(p, draws));
      var head := CommunitiesHead + p.names[i] + "', '";
      && |stmts| == 100
      && StartsWith(stmts[i], head) && StartsWith(stmts[j], head)
  {
    var rows := Rows(p, draws);
    var head := CommunitiesHead + p.names[i] + "', '";
    var si := Statement(rows[i]);
    assert si == head + (rows[i].1 + "', '" + rows[i].2 + "');");
    assert si[..|head|] == head;
    var sj := Statement(rows[j]);
    assert sj == head + (rows[j].1 + "', '" + rows[j].2 + "');");
    assert sj[..|head|] == head;
  }

  /** "Bassline Brotherhood" is both the 23rd and the 85th name. */
  lemma BasslineListedTwice()
    ensures |Names| == 100 && Names[22] == Names[84] == "Bassline Brotherhood"
  {
  }
}

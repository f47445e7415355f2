/** The element catalog of the journal (client/js/core/pure.js): the five element tags, their
    writing prompts, colours and descriptive details, and the constructor of a journal entry.
    The source keys its tables by tag; here each table is a function of the `Element` a valid
    tag names, and each lookup first maps the tag to its element. */
module Catalog {
  import opened Common

  /** The five elements. */
  datatype Element = Earth | Water | Fire | Air | Spirit

  /** The descriptive record shown for an element. */
  datatype Detail = Detail(name: string, figure: string, description: string,
                           natureAction: string, quickFacts: seq<string>)

  /** The tag of an element: the key of its row in every table. */
  function Tag(e: Element): string
  {
    match e
    case Earth => "earth"
    case Water => "water"
    case Fire => "fire"
    case Air => "air"
    case Spirit => "spirit"
  }

  /** The element a tag names, if it names one: the row a table lookup `table[tag]` reads. A
      tag names an element exactly when it is that element's tag. */
  function ElementOf(tag: string): (r: Option<Element>)
    ensures r.Some? ==> Tag(r.value) == tag
    ensures r.None? ==> forall e: Element :: Tag(e) != tag
  {
    if tag == "earth" then Some(Earth)
    else if tag == "water" then Some(Water)
    else if tag == "fire" then Some(Fire)
    else if tag == "air" then Some(Air)
    else if tag == "spirit" then Some(Spirit)
    else None
  }

  /** `isValidElement`, restricted to the prompt table's own keys: exactly the five tags. */
  function IsValidElement(tag: string): (b: bool)
    ensures b <==> exists e: Element :: Tag(e) == tag
  {
    ElementOf(tag).Some?
  }

  /** Tags and elements correspond one to one. */
  lemma TagRoundTrip(e: Element)
    ensures ElementOf(Tag(e)) == Some(e)
  {
  }

  /** Property names every plain JavaScript object inherits from `Object.prototype`. */
  predicate IsObjectPrototypeName(tag: string)
  {
    tag in {"constructor", "hasOwnProperty", "isPrototypeOf", "propertyIsEnumerable",
            "toLocaleString", "toString", "valueOf", "__proto__", "__defineGetter__",
            "__defineSetter__", "__lookupGetter__", "__lookupSetter__"}
  }

  /** `isValidElement` as written: `element in ELEMENT_PROMPTS` is the JavaScript `in` operator,
      which also answers true for the names the object inherits from `Object.prototype`. */
  function IsValidElementAsWritten(tag: string): (b: bool)
    ensures IsValidElement(tag) ==> b
    ensures b ==> IsValidElement(tag) || IsObjectPrototypeName(tag)
  {
    IsValidElement(tag) || IsObjectPrototypeName(tag)
  }

  /** The check as written accepts inherited names such as "toString" and "constructor", which
      name no element and so have no prompts, colour or details. */
  lemma InheritedNamesPassValidation()
    ensures IsValidElementAsWritten("toString") && !IsValidElement("toString")
    ensures IsValidElementAsWritten("constructor") && !IsValidElement("constructor")
    ensures ElementOf("toString") == None
  {
  }

  /** `getAllElements`: the five element tags in display order, each a valid element, every
      valid element among them, and none twice. */
  function GetAllElements(): (r: seq<string>)
    ensures |r| == 5
    ensures forall tag :: tag in r <==> IsValidElement(tag)
    ensures forall i, j :: 0 <= i < j < |r| ==> r[i] != r[j]
  {
    [Tag(Earth), Tag(Water), Tag(Fire), Tag(Air), Tag(Spirit)]
  }

  /** `ELEMENT_PROMPTS`: an element's row, four writing prompts. */
  function Prompts(e: Element): (p: seq<string>)
    ensures |p| == 4
  {
    match e
    case Earth => [
      "Where have you felt "
        + "most grounded and "
        + "secure recently?",
      "What physical "
        + "sensations are you "
        + "noticing in your "
        + "body right now?",
      "Describe a place in "
        + "nature that makes "
        + "you feel connected "
        + "to the earth.",
      "What practices help "
        + "you feel stable and "
        + "rooted?"
    ]
    case Water => [
      "What emotions have "
        + "been flowing through "
        + "you today?",
      "How do you allow "
        + "yourself to feel "
        + "without judgment?",
      "What needs to be "
        + "released or let go "
        + "of?",
      "Describe the quality "
        + "of your emotional "
        + "state like "
        + "water—still, "
        + "flowing, turbulent?"
    ]
    case Fire => [
      "What is something "
        + "you feel passionate "
        + "or energized about "
        + "right now?",
      "What action could "
        + "you take today that "
        + "excites you?",
      "Where do you feel "
        + "your inner spark "
        + "calling you forward?",
      "What would you "
        + "create if fear was "
        + "not holding you "
        + "back?"
    ]
    case Air => [
      "Which thoughts have "
        + "been swirling in "
        + "your mind lately?",
      "What clarity are you "
        + "seeking right now?",
      "How can you create "
        + "more mental space "
        + "today?",
      "What ideas want to "
        + "be expressed or "
        + "communicated?"
    ]
    case Spirit => [
      "What brings you a "
        + "sense of connection "
        + "to something "
        + "greater?",
      "What are you "
        + "grateful for in this "
        + "moment?",
      "How do you "
        + "experience the "
        + "divine or unity in "
        + "your life?",
      "What is your soul "
        + "asking you to pay "
        + "attention to?"
    ]
  }

  /** `ELEMENT_PROMPTS[element]`: `undefined` unless the tag is an element; every element has
      exactly four prompts. */
  function PromptsFor(tag: string): (r: Option<seq<string>>)
    ensures r.Some? <==> IsValidElement(tag)
    ensures r.Some? ==> |r.value| == 4
  {
    match ElementOf(tag)
    case None => None
    case Some(e) => Some(Prompts(e))
  }

  /** `Math.floor(random * n)`: the index a random value in [0, 1) picks out of `n`. */
  function PickIndex(random: real, n: nat): (i: nat)
    requires 0.0 <= random < 1.0 && n > 0
    ensures i < n
  {
    assert 0.0 <= random * n as real < n as real;
    (random * n as real).Floor
  }

  /** The pick is uniform: index `i` is picked exactly by the random values in
      [i/n, (i+1)/n), a slice of width 1/n of the range. */
  lemma PickIndexUniform(random: real, n: nat, i: nat)
    requires 0.0 <= random < 1.0 && n > 0 && i < n
    ensures PickIndex(random, n) == i <==> i as real / n as real <= random < (i + 1) as real / n as real
  {
    var x := random * n as real;
    assert i as real / n as real <= random <==> i as real <= x;
    assert random < (i + 1) as real / n as real <==> x < (i + 1) as real;
  }

  /** `getRandomPrompt(element)`, with the value of `Math.random()` passed in as `random`.
      For an unknown tag the source reads `length` of `undefined` and throws: `None`. For an
      element the result is the prompt at the picked index, one of that element's prompts. */
  function GetRandomPrompt(tag: string, random: real): (r: Option<string>)
    requires 0.0 <= random < 1.0
    ensures r.Some? <==> IsValidElement(tag)
    ensures r.Some? ==> r.value == Prompts(ElementOf(tag).value)[PickIndex(random, 4)]
    ensures r.Some? ==> r.value in Prompts(ElementOf(tag).value)
  {
    match PromptsFor(tag)
    case None => None
    case Some(prompts) => Some(prompts[PickIndex(random, |prompts|)])
  }

  /** The colour table of `getElementColor`, as 24-bit RGB values. */
  function Color(e: Element): (c: int)
    ensures 0 <= c < 0x1000000
  {
    match e
    case Earth => 0x8b7355
    case Water => 0x4a90a4
    case Fire => 0xd4573f
    case Air => 0x68f2c2
    case Spirit => 0x48235f
  }

  /** `getElementColor`: one 24-bit colour per element and `undefined` for any other tag. */
  function GetElementColor(tag: string): (c: Option<int>)
    ensures c.Some? <==> IsValidElement(tag)
    ensures c.Some? ==> c.value == Color(ElementOf(tag).value)
    ensures c.Some? ==> 0 <= c.value < 0x1000000
  {
    match ElementOf(tag)
    case None => None
    case Some(e) => Some(Color(e))
  }

  /** No two elements share a colour. */
  lemma ColorsDistinct(a: string, b: string)
    requires IsValidElement(a) && IsValidElement(b) && a != b
    ensures GetElementColor(a) != GetElementColor(b)
  {
  }

  /** The `name` field of an element's `ELEMENT_DETAILS` row. */
  function DisplayName(e: Element): string
  {
    match e
    case Earth =>
      "Earth"
    case Water =>
      "Water"
    case Fire =>
      "Fire"
    case Air =>
      "Air"
    case Spirit =>
      "Spirit"
  }

  /** The `figure` field: the Platonic solid of the element. */
  function Figure(e: Element): string
  {
    match e
    case Earth =>
      "Cube • Hexahedron"
    case Water =>
      "Icosahedron"
    case Fire =>
      "Tetrahedron"
    case Air =>
      "Octahedron"
    case Spirit =>
      "Dodecahedron"
  }

  /** The `description` field. */
  function Description(e: Element): string
  {
    match e
    case Earth =>
      "The cube is the most "
        + "stable of the "
        + "Platonic solids, "
        + "echoing the steady "
        + "heartbeat of soil "
        + "and stone."
    case Water =>
      "Twenty triangular "
        + "faces mirror endless "
        + "ripples—each angle a "
        + "new current or "
        + "emotional tide."
    case Fire =>
      "Four faces rise into "
        + "a single point, "
        + "channeling breath "
        + "upward like sparks "
        + "leaping from flame."
    case Air =>
      "Twin pyramids join "
        + "at the center, "
        + "symbolizing balance "
        + "between inhale and "
        + "exhale, thought and "
        + "expression."
    case Spirit =>
      "Twelve pentagons "
        + "orbit a hidden "
        + "center, hinting at "
        + "the unseen layers "
        + "that bind each "
        + "element together."
  }

  /** The `natureAction` field, never empty. */
  function NatureAction(e: Element): (a: string)
    ensures a != ""
  {
    match e
    case Earth =>
      "Press your bare feet "
        + "into soil or hold a "
        + "smooth stone and "
        + "study its details "
        + "for 30 seconds."
    case Water =>
      "Cup water in your "
        + "hands and feel its "
        + "movement, or listen "
        + "closely to running "
        + "water for a minute."
    case Fire =>
      "Warm your palms near "
        + "a flame or sunlight "
        + "and notice the heat "
        + "before journaling."
    case Air =>
      "Step outside, touch "
        + "a tree if possible, "
        + "and take three long, "
        + "intentional breaths."
    case Spirit =>
      "Find a quiet view of "
        + "the sky, close your "
        + "eyes briefly, and "
        + "notice any whispers "
        + "of intuition."
  }

  /** The `quickFacts` field, five facts per element. */
  function QuickFacts(e: Element): (f: seq<string>)
    ensures |f| == 5
  {
    match e
    case Earth => [
      "Faces always meet at "
        + "right angles, "
        + "representing "
        + "structure and "
        + "ritual.",
      "Aligned with the "
        + "root chakra & long "
        + "exhales.",
      "Best used when "
        + "journaling about "
        + "anchors and "
        + "foundations.",
      "Six faces mirror the "
        + "six cardinal "
        + "directions in sacred "
        + "geometry.",
      "Mineralogists link "
        + "cubes to crystalline "
        + "lattices, a reminder "
        + "of slow growth."
    ]
    case Water => [
      "The 12 vertices "
        + "encourage openness "
        + "and receptivity.",
      "Linked to sacral "
        + "energy & creative "
        + "surrender.",
      "Guides reflections "
        + "about trust, "
        + "empathy, and "
        + "release.",
      "Marine biologists "
        + "note icosahedral "
        + "symmetry in viral "
        + "shells and "
        + "microscopic "
        + "plankton.",
      "Mystics pair it with "
        + "lunar tides—journal "
        + "when emotions feel "
        + "tidal."
    ]
    case Fire => [
      "Only Platonic solid "
        + "that sits naturally "
        + "on a base, ready to "
        + "launch.",
      "Connected to solar "
        + "plexus focus & "
        + "courageous action.",
      "Use it to prompt "
        + "momentum, willpower, "
        + "and daring visions.",
      "NASA engineers love "
        + "tetrahedral trusses "
        + "for lightweight "
        + "strength.",
      "Esoteric texts call "
        + "it the alchemical "
        + "“spark” that turns "
        + "ideas to form."
    ]
    case Air => [
      "Eight faces keep "
        + "conversations "
        + "circulating.",
      "Aligned with "
        + "heart-space openness "
        + "& listening.",
      "Invites journaling "
        + "on clarity, "
        + "language, and "
        + "exchange.",
      "Crystallographers "
        + "see octahedra inside "
        + "diamonds and quartz.",
      "Symbolists say its "
        + "dual pyramids "
        + "channel breath "
        + "between Earth and "
        + "sky."
    ]
    case Spirit => [
      "Considered a bridge "
        + "to ether in sacred "
        + "geometry.",
      "Pairs with crown "
        + "chakra practices & "
        + "stillness.",
      "Supports reflections "
        + "on purpose, wonder, "
        + "and unity.",
      "Astronomers model "
        + "certain "
        + "quasicrystals with "
        + "dodecahedral "
        + "symmetry.",
      "Plato linked it to "
        + "the cosmos—use it "
        + "when questions feel "
        + "infinite."
    ]
  }

  /** `ELEMENT_DETAILS`: an element's row, which always names a nature action and carries
      exactly five quick facts. */
  function Details(e: Element): (d: Detail)
    ensures |d.quickFacts| == 5 && d.natureAction != ""
  {
    Detail(DisplayName(e), Figure(e), Description(e), NatureAction(e), QuickFacts(e))
  }

  /** `getElementDetail`: an element's details, which always name a nature action and carry
      exactly five quick facts; `undefined` for any other tag. */
  function GetElementDetail(tag: string): (r: Option<Detail>)
    ensures r.Some? <==> IsValidElement(tag)
    ensures r.Some? ==> r.value == Details(ElementOf(tag).value)
    ensures r.Some? ==> |r.value.quickFacts| == 5 && r.value.natureAction != ""
  {
    match ElementOf(tag)
    case None => None
    case Some(e) => Some(Details(e))
  }

  /** `getElementDetails`: the whole details table, keyed by exactly the five tags, each row
      the details of the element its key names. */
  function GetElementDetails(): (t: map<string, Detail>)
    ensures forall tag :: tag in t <==> IsValidElement(tag)
    ensures forall tag :: tag in t ==> ElementOf(tag).Some? && t[tag] == Details(ElementOf(tag).value)
  {
    map tag | tag in GetAllElements() :: Details(ElementOf(tag).value)
  }

  /** Looking one tag up agrees with looking it up in the whole table. */
  lemma DetailAgreesWithTable(tag: string)
    ensures GetElementDetail(tag) ==
              if tag in GetElementDetails() then Some(GetElementDetails()[tag]) else None
  {
  }

  /** `getNatureAction`: `ELEMENT_DETAILS[element]?.natureAction || ''` — the nature action of
      the element the tag names, and the empty text for any other tag. */
  function GetNatureAction(tag: string): (a: string)
    ensures ElementOf(tag).Some? ==> a == NatureAction(ElementOf(tag).value) && a != ""
    ensures ElementOf(tag).None? ==> a == ""
  {
    match GetElementDetail(tag)
    case Some(d) => if d.natureAction != "" then d.natureAction else ""
    case None => ""
  }

  /** Every element's tag yields that element's nature action, which is never empty. */
  lemma NatureActionOfEveryElement(e: Element)
    ensures GetNatureAction(Tag(e)) == NatureAction(e) != ""
  {
    TagRoundTrip(e);
  }

  /** The folder `createEntry` uses when the caller gives none. */
  const DefaultFolder := "inbox"

  /** `createEntry(element, text, folder = 'inbox')`, with `Date.now()` passed in as `now` and
      `new Date().toISOString()` as `isoDate`. The element and text are kept as given; the folder
      is the one given, or "inbox" when it is omitted (`undefined`). */
  function CreateEntry(element: string, text: string, folder: Option<string>, now: int,
                       isoDate: string): (e: Entry)
    ensures e.element == element && e.text == text
    ensures e.id == now && e.date == isoDate
    ensures folder.Some? ==> e.folder == folder.value
    ensures folder.None? ==> e.folder == DefaultFolder
  {
    Entry(now, element, text, if folder.Some? then folder.value else DefaultFolder, isoDate)
  }

  /** An entry created without a folder lands in "inbox", which is not one of the element
      folders; an entry created with its own element as folder, as the save handler does, lands
      in a valid element folder. */
  lemma CreatedFolderValidity(element: string, text: string, now: int, isoDate: string)
    ensures !IsValidElement(CreateEntry(element, text, None, now, isoDate).folder)
    ensures IsValidElement(element) ==>
              IsValidElement(CreateEntry(element, text, Some(element), now, isoDate).folder)
  {
  }
}

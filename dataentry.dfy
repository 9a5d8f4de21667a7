/**
 * The drill entry form (DataEntry.jsx): a form record whose list fields are edited by
 * toggling, by appending trimmed input and by removing entries, the next free drill id, and
 * the catalogue record generated from the form (trimmed texts, numeric fields read with
 * `parseInt` and defaults).
 */
module DataEntry {
  import opened Wrappers
  import opened Text
  import opened Drills
  import Seqs
  import Vocabulary

  /** The form state. Every text input holds a string; the intensity select starts at the
      number 1, which every use reads as the string "1". */
  datatype Form = Form(
    name: string,
    description: string,
    ageGroup: string,
    duration: string,
    equipment: seq<string>,
    picture: seq<string>,
    tags: seq<string>,
    intensity: string)

  /** The empty form: empty texts and lists, intensity 1. */
  const InitialForm := Form("", "", "", "", [], [], [], "1")

  // ---------------------------------------------------------------------------------------
  // The next id.

  /** `drillsData.reduce((max, drill) => Math.max(max, drill.id), 0)`, left to right. */
  function MaxId(catalog: seq<Drill>): (m: int)
    ensures m >= 0
    ensures forall k :: 0 <= k < |catalog| ==> catalog[k].id <= m
    ensures m == 0 || HasId(catalog, m)
  {
    if catalog == [] then 0
    else
      var init := catalog[..|catalog| - 1];
      var m := MaxId(init);
      var x := catalog[|catalog| - 1].id;
      assert HasId(init, m) ==> HasId(catalog, m) by {
        if HasId(init, m) {
          var k :| 0 <= k < |init| && init[k].id == m;
          assert catalog[k].id == m;
        }
      }
      if m >= x then m else x
  }

  /** `nextId`: one more than the largest id (1 for a catalogue without positive ids). It is
      larger than every id, hence used by no drill, and the id just below it is 0 or taken. */
  function NextId(catalog: seq<Drill>): (r: int)
    ensures r >= 1
    ensures forall k :: 0 <= k < |catalog| ==> catalog[k].id < r
    ensures !HasId(catalog, r)
    ensures r == 1 || HasId(catalog, r - 1)
  {
    MaxId(catalog) + 1
  }

  /** The next id is the least number above 0 and above every id of the catalogue. */
  lemma NextIdLeast(catalog: seq<Drill>, n: int)
    requires n >= 1 && forall k :: 0 <= k < |catalog| ==> catalog[k].id < n
    ensures NextId(catalog) <= n
  {
    var r := NextId(catalog);
    if r != 1 {
      var k :| 0 <= k < |catalog| && catalog[k].id == r - 1;
    }
  }

  // ---------------------------------------------------------------------------------------
  // List fields.

  /** `list.filter(e => e !== x)`: every entry equal to `x` removed. */
  function RemoveAll(xs: seq<string>, x: string): (r: seq<string>)
    ensures x !in r
    ensures forall y :: y != x ==> (y in r <==> y in xs)
  {
    Seqs.Filter(xs, (e: string) => e != x)
  }

  /** Removing keeps the count of every other entry and drops every copy of `x`; with
      `RemoveAllAppend` this makes it the list of the other entries in their old order. */
  lemma {:induction false} RemoveAllCounts(xs: seq<string>, x: string)
    ensures forall y :: Seqs.Count(RemoveAll(xs, x), y) == if y == x then 0 else Seqs.Count(xs, y)
    ensures |RemoveAll(xs, x)| == |xs| - Seqs.Count(xs, x)
  {
    if xs != [] {
      RemoveAllCounts(xs[1..], x);
      var keep := (e: string) => e != x;
      assert RemoveAll(xs, x) == (if keep(xs[0]) then [xs[0]] else []) + RemoveAll(xs[1..], x);
    }
  }

  /** Removing from a concatenation removes from both parts, so the kept entries stay in
      their order. */
  lemma RemoveAllAppend(a: seq<string>, b: seq<string>, x: string)
    ensures RemoveAll(a + b, x) == RemoveAll(a, x) + RemoveAll(b, x)
  {
    Seqs.FilterAppend(a, b, (e: string) => e != x);
  }

  /** Removing an entry that is not there changes nothing. */
  lemma RemoveAllAbsent(xs: seq<string>, x: string)
    requires x !in xs
    ensures RemoveAll(xs, x) == xs
  {
    Seqs.FilterKeepsAll(xs, (e: string) => e != x);
  }

  /**
   * `toggleEquipment(item)` / `toggleTag(tag)` on the list: an entry that is present is
   * removed (all its copies), an absent one is appended at the end. Membership of the item
   * flips and every other value stays in or out as before.
   */
  function Toggled(xs: seq<string>, x: string): (r: seq<string>)
    ensures x in r <==> x !in xs
    ensures forall y :: y != x ==> (y in r <==> y in xs)
    ensures x !in xs ==> r == xs + [x]
  {
    if x in xs then RemoveAll(xs, x) else xs + [x]
  }

  /** Toggling an absent item twice gives the original list back. */
  lemma ToggleTwice(xs: seq<string>, x: string)
    requires x !in xs
    ensures Toggled(Toggled(xs, x), x) == xs
  {
    RemoveAllAppend(xs, [x], x);
    RemoveAllAbsent(xs, x);
    assert RemoveAll([x], x) == [];
  }

  /** Toggling a present item keeps the other entries, each as often as before. */
  lemma TogglePresent(xs: seq<string>, x: string)
    requires x in xs
    ensures forall y :: y != x ==> Seqs.Count(Toggled(xs, x), y) == Seqs.Count(xs, y)
    ensures |Toggled(xs, x)| == |xs| - Seqs.Count(xs, x)
  {
    RemoveAllCounts(xs, x);
  }

  /**
   * `addCustomEquipment` / `addCustomTag` / `addPicture` on the list: the trimmed input is
   * appended when it is not blank, even when the list already holds it; blank input leaves
   * the list as it is.
   */
  function AppendTrimmed(xs: seq<string>, input: string): (r: seq<string>)
    ensures Trim(input) == [] ==> r == xs
    ensures Trim(input) != [] ==> |r| == |xs| + 1 && r[..|xs|] == xs
  {
    if Trim(input) != [] then xs + [Trim(input)] else xs
  }

  /** What is appended is the input without its surrounding white space, and it is a fixed
      point of trimming (so it is not blank and neither starts nor ends with a space). */
  lemma AppendedIsTrimmed(xs: seq<string>, input: string)
    requires Trim(input) != []
    ensures AppendTrimmed(xs, input)[|xs|] == Trim(input)
    ensures Trim(AppendTrimmed(xs, input)[|xs|]) == AppendTrimmed(xs, input)[|xs|]
  {
    var t := Trim(input);
    assert AppendTrimmed(xs, input) == xs + [t];
    assert (xs + [t])[|xs|] == t;
    TrimIdempotent(input);
  }

  /** Duplicates are not filtered: appending a value the list holds adds a second copy. */
  lemma AppendKeepsDuplicates(xs: seq<string>, input: string)
    requires Trim(input) != []
    ensures Seqs.Count(AppendTrimmed(xs, input), Trim(input)) == Seqs.Count(xs, Trim(input)) + 1
  {
    Seqs.CountAppend(xs, [Trim(input)], Trim(input));
  }

  // ---------------------------------------------------------------------------------------
  // The generated record.

  /** `parseInt(s) || fallback`: the number read from `s`, or `fallback` when there is no
      number or it is 0. */
  function ParseOr(s: string, fallback: int): (r: int)
    ensures JsParseInt(s, Auto).None? || JsParseInt(s, Auto) == Some(0) ==> r == fallback
    ensures JsParseInt(s, Auto).Some? && JsParseInt(s, Auto).value != 0 ==> r == JsParseInt(s, Auto).value
    ensures fallback != 0 ==> r != 0
  {
    match JsParseInt(s, Auto)
    case Some(v) => if v != 0 then v else fallback
    case None => fallback
  }

  /**
   * `generateJSON` without the serialisation: the record with id `nextId`, the three texts
   * trimmed, the duration read as a number (0 when there is none), the lists as they are,
   * and the intensity read as a number (1 when there is none or it is 0).
   */
  function GenerateDrill(form: Form, id: int): (d: Drill)
    ensures d.id == id
    ensures d.name == Trim(form.name) && d.description == Trim(form.description) && d.ageGroup == Trim(form.ageGroup)
    ensures d.duration == Some(ParseOr(form.duration, 0))
    ensures d.intensity.Some? && d.intensity.value != 0
    ensures d.equipment == form.equipment && d.picture == Files(form.picture) && d.tags == form.tags
  {
    Drill(id, Trim(form.name), Trim(form.description), Trim(form.ageGroup),
          Some(ParseOr(form.duration, 0)), form.equipment, Files(form.picture), form.tags,
          Some(ParseOr(form.intensity, 1)))
  }

  /** A duration and an intensity typed as integers come back as those integers, except an
      intensity of 0, which becomes 1. */
  lemma GeneratedNumbers(form: Form, id: int, duration: int, intensity: int)
    requires form.duration == IntToString(duration) && form.intensity == IntToString(intensity)
    ensures GenerateDrill(form, id).duration == Some(duration)
    ensures GenerateDrill(form, id).intensity == Some(if intensity == 0 then 1 else intensity)
  {
    ParseIntOfInt(duration, Auto);
    ParseIntOfInt(intensity, Auto);
  }

  /** An empty duration field gives 0, and the initial intensity gives 1. */
  lemma GeneratedDefaults(form: Form, id: int)
    requires form.duration == "" && form.intensity == InitialForm.intensity
    ensures GenerateDrill(form, id).duration == Some(0)
    ensures GenerateDrill(form, id).intensity == Some(1)
  {
    assert form.intensity == "1";
    assert ParseOr("", 0) == 0 by {
      ParseEmpty();
    }
    assert ParseOr("1", 1) == 1 by {
      ParseOne();
    }
    var d := GenerateDrill(form, id);
    assert d == Drill(id, Trim(form.name), Trim(form.description), Trim(form.ageGroup),
                      Some(ParseOr(form.duration, 0)), form.equipment, Files(form.picture), form.tags,
                      Some(ParseOr(form.intensity, 1)));
  }

  /** `parseInt('')` is `NaN`. */
  lemma ParseEmpty()
    ensures JsParseInt("", Auto).None?
  {
    assert TrimStart("") == "";
  }

  /** `parseInt('1')` is 1. */
  lemma ParseOne()
    ensures JsParseInt("1", Auto) == Some(1)
  {
    ParseIntOfString(1, Auto);
    assert NatToString(1) == "1";
  }

  /** The generated record takes an id no catalogue drill has, and its texts are trimmed. */
  lemma GeneratedIsNew(catalog: seq<Drill>, form: Form)
    ensures !HasId(catalog, GenerateDrill(form, NextId(catalog)).id)
    ensures var d := GenerateDrill(form, NextId(catalog));
            Trim(d.name) == d.name && Trim(d.description) == d.description && Trim(d.ageGroup) == d.ageGroup
  {
    TrimIdempotent(form.name);
    TrimIdempotent(form.description);
    TrimIdempotent(form.ageGroup);
  }

  // ---------------------------------------------------------------------------------------
  // The page.

  /** The fields written by `handleChange` (the `name` attribute of the input). */
  datatype Field = Name | Description | AgeGroup | Duration | Intensity

  /** The value of a text field, as `form[name]` reads it. */
  function FieldOf(form: Form, field: Field): string {
    match field
    case Name => form.name
    case Description => form.description
    case AgeGroup => form.ageGroup
    case Duration => form.duration
    case Intensity => form.intensity
  }

  /** `{ ...prev, [name]: value }`: the named field reads the value, every other text field
      and the three lists read what they did. */
  function WithField(form: Form, field: Field, value: string): (r: Form)
    ensures FieldOf(r, field) == value
    ensures forall f :: f != field ==> FieldOf(r, f) == FieldOf(form, f)
    ensures r.equipment == form.equipment && r.picture == form.picture && r.tags == form.tags
  {
    match field
    case Name => form.(name := value)
    case Description => form.(description := value)
    case AgeGroup => form.(ageGroup := value)
    case Duration => form.(duration := value)
    case Intensity => form.(intensity := value)
  }

  class DataEntryPage {
    const catalog: seq<Drill>
    const nextId: int
    const ageGroups: seq<string>
    const equipmentOptions: seq<string>
    const tagOptions: seq<string>
    var form: Form
    var newEquipment: string
    var newTag: string
    var newPicture: string
    /** The generated record (`jsonOutput`; `None` for the empty output). */
    var output: Option<Drill>

    /** The page as it opens: the next id and the three vocabularies of the catalogue, an
        empty form and empty inputs. */
    constructor (catalog: seq<Drill>)
      ensures this.catalog == catalog && nextId == NextId(catalog)
      ensures Vocabulary.StrictlySorted(ageGroups) && Vocabulary.StrictlySorted(equipmentOptions)
      ensures Vocabulary.StrictlySorted(tagOptions)
      ensures forall g :: g in ageGroups <==> g != "" && exists k :: 0 <= k < |catalog| && catalog[k].ageGroup == g
      ensures forall v :: v in equipmentOptions <==> exists k :: 0 <= k < |catalog| && v in catalog[k].equipment
      ensures forall v :: v in tagOptions <==> exists k :: 0 <= k < |catalog| && v in catalog[k].tags
      ensures form == InitialForm && newEquipment == "" && newTag == "" && newPicture == "" && output.None?
    {
      this.catalog := catalog;
      nextId := NextId(catalog);
      var groups := Vocabulary.AgeGroups(catalog);
      var equipment := Vocabulary.EquipmentVocabulary(catalog);
      var tags := Vocabulary.TagVocabulary(catalog);
      ageGroups := groups;
      equipmentOptions := equipment;
      tagOptions := tags;
      form := InitialForm;
      newEquipment := "";
      newTag := "";
      newPicture := "";
      output := None;
    }

    /** `handleChange`: one text field takes the typed value. */
    method HandleChange(field: Field, value: string)
      modifies this
      ensures form == WithField(old(form), field, value)
      ensures newEquipment == old(newEquipment) && newTag == old(newTag) && newPicture == old(newPicture)
      ensures output == old(output)
    {
      form := WithField(form, field, value);
    }

    /** `toggleEquipment(item)` */
    method ToggleEquipment(item: string)
      modifies this
      ensures form == old(form).(equipment := Toggled(old(form).equipment, item))
      ensures newEquipment == old(newEquipment) && newTag == old(newTag) && newPicture == old(newPicture)
      ensures output == old(output)
    {
      form := form.(equipment := Toggled(form.equipment, item));
    }

    /** `toggleTag(tag)` */
    method ToggleTag(tag: string)
      modifies this
      ensures form == old(form).(tags := Toggled(old(form).tags, tag))
      ensures newEquipment == old(newEquipment) && newTag == old(newTag) && newPicture == old(newPicture)
      ensures output == old(output)
    {
      form := form.(tags := Toggled(form.tags, tag));
    }

    /** `addCustomEquipment`: the trimmed input is appended and the input cleared, unless
        it is blank, when nothing changes. */
    method AddCustomEquipment()
      modifies this
      ensures form == old(form).(equipment := AppendTrimmed(old(form).equipment, old(newEquipment)))
      ensures newEquipment == if Trim(old(newEquipment)) == [] then old(newEquipment) else ""
      ensures newTag == old(newTag) && newPicture == old(newPicture) && output == old(output)
    {
      if Trim(newEquipment) != [] {
        form := form.(equipment := AppendTrimmed(form.equipment, newEquipment));
        newEquipment := "";
      }
    }

    /** `addCustomTag` */
    method AddCustomTag()
      modifies this
      ensures form == old(form).(tags := AppendTrimmed(old(form).tags, old(newTag)))
      ensures newTag == if Trim(old(newTag)) == [] then old(newTag) else ""
      ensures newEquipment == old(newEquipment) && newPicture == old(newPicture) && output == old(output)
    {
      if Trim(newTag) != [] {
        form := form.(tags := AppendTrimmed(form.tags, newTag));
        newTag := "";
      }
    }

    /** `addPicture` */
    method AddPicture()
      modifies this
      ensures form == old(form).(picture := AppendTrimmed(old(form).picture, old(newPicture)))
      ensures newPicture == if Trim(old(newPicture)) == [] then old(newPicture) else ""
      ensures newEquipment == old(newEquipment) && newTag == old(newTag) && output == old(output)
    {
      if Trim(newPicture) != [] {
        form := form.(picture := AppendTrimmed(form.picture, newPicture));
        newPicture := "";
      }
    }

    /** `removePicture(pic)` */
    method RemovePicture(pic: string)
      modifies this
      ensures form == old(form).(picture := RemoveAll(old(form).picture, pic))
      ensures newEquipment == old(newEquipment) && newTag == old(newTag) && newPicture == old(newPicture)
      ensures output == old(output)
    {
      form := form.(picture := RemoveAll(form.picture, pic));
    }

    /** `generateJSON`: the output becomes the record built from the form with the next id. */
    method GenerateJson()
      modifies this
      ensures output == Some(GenerateDrill(old(form), nextId))
      ensures form == old(form)
      ensures newEquipment == old(newEquipment) && newTag == old(newTag) && newPicture == old(newPicture)
    {
      output := Some(GenerateDrill(form, nextId));
    }

    /** `resetForm`: the initial form and an empty output; the three add inputs keep what
        was typed in them. */
    method ResetForm()
      modifies this
      ensures form == InitialForm && output.None?
      ensures newEquipment == old(newEquipment) && newTag == old(newTag) && newPicture == old(newPicture)
    {
      form := InitialForm;
      output := None;
    }
  }
}

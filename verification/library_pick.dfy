/** The glue of the search-and-replace command in src/extension.ts: libraries
    become picker options, the picked option is mapped back to its library, and
    the library's variables become the replacement map for the token scan. */
module LibraryPick {
  import opened Results
  import opened Types
  import opened JsStrings
  import opened TokenReplace

  /** `{ id: String(item.id), label: item.name }`. */
  function ToOption(lib: VariableLibrary): (opt: QuickPickOption)
    ensures ParseInt(opt.id) == Some(lib.id)
    ensures opt.caption == lib.name && opt.description.None?
  {
    NumberOfString(lib.id);
    QuickPickOption(IntToString(lib.id), lib.name, None)
  }

  /** The picker options, one per library, in library order; each option's id
      reads back as its library's numeric id. */
  function ToOptions(libs: seq<VariableLibrary>): (opts: seq<QuickPickOption>)
    ensures |opts| == |libs|
    ensures forall i :: 0 <= i < |libs| ==>
      && opts[i].id == IntToString(libs[i].id)
      && opts[i].caption == libs[i].name
      && opts[i].description.None?
      && ParseInt(opts[i].id) == Some(libs[i].id)
  {
    seq(|libs|, i requires 0 <= i < |libs| => ToOption(libs[i]))
  }

  /** Index of the first library at or after `from` whose id is `id`. */
  function FindFrom(libs: seq<VariableLibrary>, id: int, from: nat): (r: Option<nat>)
    requires from <= |libs|
    decreases |libs| - from
    ensures r.Some? ==> from <= r.value < |libs| && libs[r.value].id == id
    ensures r.Some? ==> forall j :: from <= j < r.value ==> libs[j].id != id
    ensures r.None? ==> forall j :: from <= j < |libs| ==> libs[j].id != id
  {
    if from == |libs| then None
    else if libs[from].id == id then Some(from)
    else FindFrom(libs, id, from + 1)
  }

  /** `variableLibraries.find((o) => o.id === Number(selectedItem.id))`: the
      first library whose id equals the option's id read as a number. An id
      that does not read as a number (`NaN`) equals nothing. */
  function Select(libs: seq<VariableLibrary>, option: QuickPickOption): (r: Option<VariableLibrary>)
    ensures r.Some? <==> ParseInt(option.id).Some?
                         && exists j :: 0 <= j < |libs| && libs[j].id == ParseInt(option.id).value
    ensures r.Some? ==> exists j :: 0 <= j < |libs| && libs[j] == r.value
                                   && r.value.id == ParseInt(option.id).value
                                   && forall m :: 0 <= m < j ==> libs[m].id != r.value.id
  {
    match ParseInt(option.id)
    case None => None
    case Some(id) =>
      match FindFrom(libs, id, 0)
      case None => None
      case Some(j) => Some(libs[j])
  }

  /** No two libraries share an id (the server assigns ids uniquely per project). */
  ghost predicate UniqueIds(libs: seq<VariableLibrary>) {
    forall i, j :: 0 <= i < j < |libs| ==> libs[i].id != libs[j].id
  }

  /** Picking the i-th option finds a library with the i-th library's id,
      the i-th library itself when ids are unique. */
  lemma SelectOption(libs: seq<VariableLibrary>, i: nat)
    requires i < |libs|
    ensures Select(libs, ToOptions(libs)[i]).Some?
    ensures Select(libs, ToOptions(libs)[i]).value.id == libs[i].id
    ensures UniqueIds(libs) ==> Select(libs, ToOptions(libs)[i]) == Some(libs[i])
  {
    var opt := ToOptions(libs)[i];
    assert ParseInt(opt.id) == Some(libs[i].id);
    var r := FindFrom(libs, libs[i].id, 0);
    assert r.Some? && r.value <= i;
  }

  /** `replacements[key] = vars[key].value` for every variable name. */
  function BuildReplacements(vars: map<string, VariableValue>): (r: ReplacementMap)
    ensures r.Keys == vars.Keys
    ensures forall k :: k in r ==> r[k] == vars[k].value
  {
    map k | k in vars :: vars[k].value
  }

  /** What a token becomes under a library's replacement map: the variable's
      value when the variable exists with a non-empty value, the token itself
      otherwise (an unknown name, or a value `||` treats as false). */
  lemma TokenOfVariable(vars: map<string, VariableValue>, key: string)
    ensures key in vars && vars[key].value != "" ==>
              Replacement(key, BuildReplacements(vars)) == vars[key].value
    ensures key !in vars || vars[key].value == "" ==>
              Replacement(key, BuildReplacements(vars)) == Wrap(key)
  {
  }

  /** The text the command writes back, or `None` where the source dereferences
      `vars!` with no library found. */
  function SearchAndReplace(libs: seq<VariableLibrary>, selected: QuickPickOption, text: string): (r: Option<string>)
    ensures r.Some? <==> Select(libs, selected).Some?
  {
    match Select(libs, selected)
    case None => None
    case Some(lib) => Some(Substitute(text, BuildReplacements(lib.variables)))
  }

  /** Picking the i-th option of uniquely-identified libraries substitutes the
      text with the i-th library's variables. */
  lemma SearchAndReplaceOption(libs: seq<VariableLibrary>, i: nat, text: string)
    requires i < |libs| && UniqueIds(libs)
    ensures SearchAndReplace(libs, ToOptions(libs)[i], text)
            == Some(Substitute(text, BuildReplacements(libs[i].variables)))
  {
    SelectOption(libs, i);
  }
}

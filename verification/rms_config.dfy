/** RmsConfig: a map from keys to values, and the text file behind it. */
module Config {
  import opened Text
  import opened Sequences

  type Entries = map<string, string>

  // ---------- the file format ----------

  /** std::getline: a line ends at the next newline, or at the end of the text. */
  function LineEnd(text: string): (k: nat)
    ensures k <= |text| && '\n' !in text[..k]
    ensures k < |text| ==> text[k] == '\n'
  {
    if text != "" && text[0] != '\n' then
      var k := LineEnd(text[1..]);
      assert text[..1 + k] == [text[0]] + text[1..][..k];
      1 + k
    else 0
  }

  function AfterLine(text: string): (rest: string)
    ensures text != "" ==> |rest| < |text|
  {
    var k := LineEnd(text);
    if k < |text| then text[k + 1..] else ""
  }

  function Lines(text: string): seq<string>
    decreases |text|
  {
    if text == "" then [] else [text[..LineEnd(text)]] + Lines(AfterLine(text))
  }

  /** line_stream >> key; line_stream >> value */
  function ParseLine(line: string): (string, string) {
    var (key, rest) := ReadWord(line);
    var (value, _) := ReadWord(rest);
    (key, value)
  }

  /** config_.emplace: the first line of a key wins. */
  function Emplace(m: Entries, kv: (string, string)): Entries {
    if kv.0 in m then m else m[kv.0 := kv.1]
  }

  function LoadLines(lines: seq<string>, m: Entries): Entries {
    if lines == [] then m else LoadLines(lines[1..], Emplace(m, ParseLine(lines[0])))
  }

  function LoadText(text: string, m: Entries): Entries { LoadLines(Lines(text), m) }

  function LineOf(key: string, value: string): string { key + " " + value + "\n" }

  /** What save writes when the hash map is iterated in this order. */
  function SaveText(m: Entries, order: seq<string>): string
    requires forall k <- order :: k in m
  {
    if order == [] then "" else LineOf(order[0], m[order[0]]) + SaveText(m, order[1..])
  }

  /** An iteration order of the map: every key once. */
  ghost predicate IsOrder(m: Entries, order: seq<string>) {
    Distinct(order) && (forall k :: k in order <==> k in m)
  }

  // ---------- which maps survive ----------

  predicate EntryOk(key: string, value: string) {
    NoSpace(key) && NoSpace(value) && (key == "" ==> value == "")
  }

  ghost predicate WellFormed(m: Entries) {
    forall k :: k in m ==> EntryOk(k, m[k])
  }

  lemma ParseLineOk(line: string)
    ensures EntryOk(ParseLine(line).0, ParseLine(line).1)
  {
    var (key, rest) := ReadWord(line);
    if key == "" {
      assert rest == "" && SkipSpaces("") == "";
    }
  }

  lemma {:induction false} LoadKeepsWellFormed(lines: seq<string>, m: Entries)
    requires WellFormed(m)
    ensures WellFormed(LoadLines(lines, m))
    decreases |lines|
  {
    if lines != [] {
      ParseLineOk(lines[0]);
      LoadKeepsWellFormed(lines[1..], Emplace(m, ParseLine(lines[0])));
    }
  }

  /** The first line with the key: what load takes from the file for a new key. */
  predicate FirstLine(lines: seq<string>, key: string, i: nat) {
    i < |lines| && ParseLine(lines[i]).0 == key && forall j :: 0 <= j < i ==> ParseLine(lines[j]).0 != key
  }

  /** A key that is not in the old map has the value of its first line. */
  lemma {:induction false} FirstLineWins(lines: seq<string>, m: Entries, key: string, i: nat)
    requires key !in m && FirstLine(lines, key, i)
    ensures key in LoadLines(lines, m) && LoadLines(lines, m)[key] == ParseLine(lines[i]).1
    decreases |lines|
  {
    var m1 := Emplace(m, ParseLine(lines[0]));
    if i == 0 {
      OldEntriesStay(lines[1..], m1, key);
    } else {
      assert ParseLine(lines[0]).0 != key;
      FirstLineWins(lines[1..], m1, key, i - 1);
    }
  }

  /** A key of the old map keeps its value. */
  lemma {:induction false} OldEntriesStay(lines: seq<string>, m: Entries, key: string)
    requires key in m
    ensures key in LoadLines(lines, m) && LoadLines(lines, m)[key] == m[key]
    decreases |lines|
  {
    if lines != [] {
      OldEntriesStay(lines[1..], Emplace(m, ParseLine(lines[0])), key);
    }
  }

  /** There are no other keys. */
  lemma {:induction false} NoOtherKeys(lines: seq<string>, m: Entries, key: string)
    requires key !in m && forall i :: 0 <= i < |lines| ==> ParseLine(lines[i]).0 != key
    ensures key !in LoadLines(lines, m)
    decreases |lines|
  {
    if lines != [] {
      assert ParseLine(lines[0]).0 != key;
      NoOtherKeys(lines[1..], Emplace(m, ParseLine(lines[0])), key);
    }
  }

  lemma ParseSaved(key: string, value: string)
    requires EntryOk(key, value)
    ensures ParseLine(key + " " + value) == (key, value)
  {
    var line := key + " " + value;
    if key == "" {
      assert line[1..] == "" && SkipSpaces(line) == SkipSpaces("") == "";
    } else {
      assert line == key + (" " + value);
      ReadWordOf(key, " " + value);
      SecondWord(value);
    }
  }

  lemma SecondWord(value: string)
    requires NoSpace(value)
    ensures ReadWord(" " + value).0 == value
  {
    assert (" " + value)[1..] == value;
    assert SkipSpaces(" " + value) == SkipSpaces(value) == value;
    if value != "" {
      WordRunOf(value, "");
      assert value + "" == value;
    }
  }

  lemma {:induction false} LineEndOf(line: string, rest: string)
    requires '\n' !in line
    ensures LineEnd(line + "\n" + rest) == |line|
    decreases |line|
  {
    var text := line + "\n" + rest;
    if line != "" {
      assert text[1..] == line[1..] + "\n" + rest;
      LineEndOf(line[1..], rest);
    }
  }

  lemma LinesOfSaved(key: string, value: string, rest: string)
    requires EntryOk(key, value)
    ensures Lines(LineOf(key, value) + rest) == [key + " " + value] + Lines(rest)
  {
    var line := key + " " + value;
    var text := LineOf(key, value) + rest;
    assert '\n' !in key && '\n' !in value;
    assert text == line + "\n" + rest;
    LineEndOf(line, rest);
    assert text[..|line|] == line && text[|line| + 1..] == rest;
  }

  /** m restricted to the keys of order, on top of acc. */
  function Restricted(m: Entries, order: seq<string>, acc: Entries): Entries
    requires forall k <- order :: k in m
  {
    if order == [] then acc else Restricted(m, order[1..], acc[order[0] := m[order[0]]])
  }

  lemma {:induction false} RestrictedAt(m: Entries, order: seq<string>, acc: Entries)
    requires forall k <- order :: k in m
    ensures forall k :: k in Restricted(m, order, acc) <==> k in order || k in acc
    ensures forall k :: k in Restricted(m, order, acc) ==>
              Restricted(m, order, acc)[k] == if k in order then m[k] else acc[k]
    decreases |order|
  {
    if order != [] {
      RestrictedAt(m, order[1..], acc[order[0] := m[order[0]]]);
    }
  }

  lemma {:induction false} LoadSaved(m: Entries, order: seq<string>, acc: Entries)
    requires WellFormed(m) && Distinct(order)
    requires forall k <- order :: k in m && k !in acc
    ensures LoadText(SaveText(m, order), acc) == Restricted(m, order, acc)
    decreases |order|
  {
    if order != [] {
      var key := order[0];
      var rest := SaveText(m, order[1..]);
      LinesOfSaved(key, m[key], rest);
      ParseSaved(key, m[key]);
      LoadSaved(m, order[1..], acc[key := m[key]]);
    }
  }

  /** save then load into an empty map gives the map back, whatever the iteration
      order, exactly when every entry is whitespace-free and only an empty value
      has the empty key. */
  lemma RoundTrip(m: Entries, order: seq<string>)
    requires IsOrder(m, order)
    ensures LoadText(SaveText(m, order), map[]) == m <==> WellFormed(m)
  {
    if WellFormed(m) {
      LoadSaved(m, order, map[]);
      RestrictedAt(m, order, map[]);
    }
    LoadKeepsWellFormed(Lines(SaveText(m, order)), map[]);
  }

  // ---------- the class ----------

  /** The file system, as far as RmsConfig opens files. */
  class Disk {
    var files: map<string, string>
    var writable: set<string>

    constructor (files: map<string, string>, writable: set<string>)
      ensures this.files == files && this.writable == writable
    {
      this.files, this.writable := files, writable;
    }
  }

  /** The static members of the C++ class. An empty path means "not set up". */
  class RmsConfig {
    var config: Entries
    var path: string

    constructor ()
      ensures config == map[] && path == "" && WellFormed(config)
    {
      config, path := map[], "";
    }

    /** operator[]: looking a key up creates it. */
    method Find(key: string) returns (value: string)
      modifies this`config
      ensures path == "" ==> value == "" && config == old(config)
      ensures path != "" ==> value == if key in old(config) then old(config)[key] else ""
      ensures path != "" ==> config == old(config)[key := value]
      ensures WellFormed(old(config)) && NoSpace(key) ==> WellFormed(config)
    {
      if path != "" {
        if key !in config {
          config := config[key := ""];
        }
        value := config[key];
      } else {
        value := "";
      }
    }

    method Replace(key: string, value: string)
      modifies this`config
      ensures config == if path == "" then old(config) else old(config)[key := value]
      ensures WellFormed(old(config)) && EntryOk(key, value) ==> WellFormed(config)
    {
      if path == "" {
        return;
      }
      config := config[key := value];
    }

    /** Some iteration order of the hash map. */
    method IterationOrder() returns (order: seq<string>)
      ensures IsOrder(config, order)
    {
      order := [];
      var rest := config.Keys;
      while rest != {}
        invariant Distinct(order) && rest <= config.Keys
        invariant forall k :: k in config <==> k in order || k in rest
        invariant forall k <- order :: k !in rest
        decreases |rest|
      {
        var key :| key in rest;
        order := order + [key];
        rest := rest - {key};
      }
    }

    method Save(disk: Disk) returns (ghost order: seq<string>)
      modifies disk`files
      ensures IsOrder(config, order)
      ensures disk.files == if path in disk.writable
                            then old(disk.files)[path := SaveText(config, order)] else old(disk.files)
    {
      var entries := IterationOrder();
      order := entries;
      if path in disk.writable {
        var text := "";
        for i := 0 to |entries|
          invariant text + SaveText(config, entries[i..]) == SaveText(config, entries)
          invariant disk.files == old(disk.files)
        {
          assert entries[i..][0] == entries[i] && entries[i..][1..] == entries[i + 1..];
          text := text + LineOf(entries[i], config[entries[i]]);
          assert text + SaveText(config, entries[i + 1..]) == SaveText(config, entries);
        }
        assert entries[|entries|..] == [];
        assert text + "" == text;
        disk.files := disk.files[path := text];
      }
    }

    /** ok is false where the program exits. */
    method Load(disk: Disk, path: string) returns (ok: bool)
      modifies this
      ensures ok == (path in disk.files)
      ensures ok ==> this.path == path && config == LoadText(disk.files[path], old(config))
      ensures !ok ==> this.path == "" && config == old(config)
      ensures WellFormed(old(config)) ==> WellFormed(config)
    {
      this.path := path;
      if path !in disk.files {
        this.path := "";
        return false;
      }
      var rest := disk.files[path];
      while rest != ""
        invariant LoadText(rest, config) == LoadText(disk.files[path], old(config))
        invariant this.path == path
        decreases |rest|
      {
        var line := rest[..LineEnd(rest)];
        assert Lines(rest) == [line] + Lines(AfterLine(rest));
        config := Emplace(config, ParseLine(line));
        rest := AfterLine(rest);
      }
      ok := true;
      if WellFormed(old(config)) {
        LoadKeepsWellFormed(Lines(disk.files[path]), old(config));
      }
    }
  }

  /** What one process saves is what the next one, with an empty map, loads. */
  method SaveAndReload(running: RmsConfig, disk: Disk) returns (next: RmsConfig)
    requires WellFormed(running.config) && running.path in disk.writable
    modifies disk`files
    ensures fresh(next) && next.config == running.config && next.path == running.path
  {
    ghost var order := running.Save(disk);
    next := new RmsConfig();
    var ok := next.Load(disk, running.path);
    RoundTrip(running.config, order);
  }
}

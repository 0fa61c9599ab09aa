/**
 * zen/po.hpp: the builder of command-line programs, their subcommands and
 * their flags, and the (unfinished) parser.
 *
 * Flags and subcommands are passed and stored by value, so the containers
 * hold `FlagValue`s and `SubcommandValue`s: what the object held when it
 * was added.  Every setter returns the object it was called on.
 */
module ZenProgramOptions {
  import opened Wrappers
  import opened ZenSequenceMap

  datatype FlagType = Boolean | StringType

  /**
   * ZEN_AUTO_SIZE, the "no upper bound" count of an n-ary flag.  No file
   * of the library defines it; it is taken to be the largest `size_t`.
   */
  const AutoSize: nat := 0xFFFF_FFFF_FFFF_FFFF

  /** A copy of a Flag. */
  datatype FlagValue = FlagValue(
    patterns: seq<string>,
    description: Option<string>,
    minCount: nat,
    maxCount: nat,
    metavar: Option<string>,
    flagType: FlagType)

  /** A copy of a Subcommand. */
  datatype SubcommandValue = SubcommandValue(name: string, description: string, flags: seq<FlagValue>)

  /**
   * The type set_is_bool leaves: boolean when asked for, and otherwise a
   * boolean flag becomes a string flag while a string flag stays one.
   */
  function TypeAfter(current: FlagType, isBool: bool): (r: FlagType)
    ensures isBool ==> r == Boolean
    ensures !isBool && current == Boolean ==> r == StringType
    ensures !isBool && current == StringType ==> r == current
  {
    if isBool then Boolean
    else if current == Boolean then StringType
    else current
  }

  /** After set_is_bool the flag is boolean exactly when asked, whatever it was. */
  lemma TypeAfterForgetsCurrent(a: FlagType, b: FlagType, isBool: bool)
    ensures TypeAfter(a, isBool) == TypeAfter(b, isBool)
    ensures TypeAfter(a, isBool) == Boolean <==> isBool
  {
  }

  class Flag {
    var patterns: seq<string>
    var description: Option<string>
    var minCount: nat
    var maxCount: nat
    var metavar: Option<string>
    var flagType: FlagType

    /** The flag as a value, as it is copied into a container. */
    function Value(): FlagValue
      reads this
    {
      FlagValue(patterns, description, minCount, maxCount, metavar, flagType)
    }

    /**
     * Flag{patterns...}: the patterns, no description and no metavar, at
     * least 0 and at most 1 occurrence, a string flag.
     */
    constructor(patterns: seq<string>)
      ensures Value() == FlagValue(patterns, None, 0, 1, None, StringType)
    {
      this.patterns := patterns;
      description := None;
      minCount := 0;
      maxCount := 1;
      metavar := None;
      flagType := StringType;
    }

    /** set_description: stores the text; nothing else changes. */
    method SetDescription(newDescription: string) returns (self: Flag)
      modifies this
      ensures self == this
      ensures Value() == old(Value()).(description := Some(newDescription))
    {
      description := Some(newDescription);
      self := this;
    }

    /** set_nary: an n-ary flag has no upper bound, any other one at most 1. */
    method SetNary(isNary: bool) returns (self: Flag)
      modifies this
      ensures self == this
      ensures isNary ==> Value() == old(Value()).(maxCount := AutoSize)
      ensures !isNary ==> Value() == old(Value()).(maxCount := 1)
    {
      if isNary {
        maxCount := AutoSize;
      } else {
        maxCount := 1;
      }
      self := this;
    }

    /** set_is_bool */
    method SetIsBool(isBool: bool) returns (self: Flag)
      modifies this
      ensures self == this
      ensures Value() == old(Value()).(flagType := TypeAfter(old(flagType), isBool))
    {
      if isBool {
        flagType := Boolean;
      } else if flagType == Boolean {
        flagType := StringType;
      }
      self := this;
    }

    /** set_metavar: stores the text; nothing else changes. */
    method SetMetavar(newMetavar: string) returns (self: Flag)
      modifies this
      ensures self == this
      ensures Value() == old(Value()).(metavar := Some(newMetavar))
    {
      metavar := Some(newMetavar);
      self := this;
    }
  }

  class Subcommand {
    var name: string
    var description: string
    var flags: seq<FlagValue>

    /** The subcommand as a value, as it is copied into a program. */
    function Value(): SubcommandValue
      reads this
    {
      SubcommandValue(name, description, flags)
    }

    /** Subcommand(name): no description and no flags. */
    constructor(name: string)
      ensures Value() == SubcommandValue(name, "", [])
    {
      this.name := name;
      description := "";
      flags := [];
    }

    /** set_description: stores the text; nothing else changes. */
    method SetDescription(newDescription: string) returns (self: Subcommand)
      modifies this
      ensures self == this
      ensures Value() == old(Value()).(description := newDescription)
    {
      description := newDescription;
      self := this;
    }

    /** add_flag: a copy of the flag goes after the earlier ones. */
    method AddFlag(f: Flag) returns (self: Subcommand)
      modifies this
      ensures self == this
      ensures Value() == old(Value()).(flags := old(flags) + [old(f.Value())])
    {
      flags := flags + [f.Value()];
      self := this;
    }
  }

  /**
   * The number of dashes the parser counts at the head of a pattern: one
   * for a leading `-`, two for a leading `--`, and no more.
   */
  function DashCount(pattern: string): (k: nat)
    ensures k <= 2
    ensures k >= 1 <==> |pattern| > 0 && pattern[0] == '-'
    ensures k == 2 <==> |pattern| > 1 && pattern[0] == '-' && pattern[1] == '-'
  {
    if |pattern| > 0 && pattern[0] == '-' then
      if |pattern| > 1 && pattern[1] == '-' then 2 else 1
    else 0
  }

  class Program {
    var name: string
    var description: string
    var author: string
    const subcommands: SequenceMap<string, SubcommandValue>
    var flags: seq<FlagValue>

    /** Program(name): no description, author, subcommands or flags. */
    constructor(name: string)
      ensures this.name == name && description == "" && author == "" && flags == []
      ensures fresh(subcommands) && subcommands.Pairs() == [] && subcommands.Valid()
    {
      this.name := name;
      description := "";
      author := "";
      subcommands := new SequenceMap();
      flags := [];
    }

    /** set_description: stores the text; nothing else changes. */
    method SetDescription(newDescription: string) returns (self: Program)
      modifies this
      ensures self == this
      ensures description == newDescription
      ensures name == old(name) && author == old(author) && flags == old(flags)
    {
      description := newDescription;
      self := this;
    }

    /** set_author: stores the text; nothing else changes. */
    method SetAuthor(newAuthor: string) returns (self: Program)
      modifies this
      ensures self == this
      ensures author == newAuthor
      ensures name == old(name) && description == old(description) && flags == old(flags)
    {
      author := newAuthor;
      self := this;
    }

    /**
     * add_subcommand: emplaces a copy of the subcommand under its name, so
     * the subcommands keep their insertion order and a second one with a
     * name already taken is listed but not indexed.
     */
    method AddSubcommand(s: Subcommand) returns (self: Program)
      modifies subcommands
      ensures self == this
      ensures subcommands.Pairs() == old(subcommands.Pairs()) + [(old(s.name), old(s.Value()))]
      ensures old(s.name) in old(subcommands.index) ==> subcommands.index == old(subcommands.index)
      ensures old(s.name) !in old(subcommands.index) ==>
        old(s.name) in subcommands.index && subcommands.index[old(s.name)].value == old(s.Value())
      ensures old(subcommands.Valid()) ==> subcommands.Valid()
    {
      var _ := subcommands.Emplace(s.name, s.Value());
      self := this;
    }

    /** add_flag: a copy of the flag goes after the earlier ones. */
    method AddFlag(f: Flag) returns (self: Program)
      modifies this
      ensures self == this
      ensures flags == old(flags) + [old(f.Value())]
      ensures name == old(name) && description == old(description) && author == old(author)
    {
      flags := flags + [f.Value()];
      self := this;
    }

    /**
     * parse: walks every pattern of every flag, counting its leading dashes,
     * and then returns an empty result whatever the arguments are.
     */
    method Parse<A>(argc: int, argv: string) returns (result: map<string, A>)
      ensures result == map[]
    {
      result := map[];
      for i := 0 to |flags| {
        var f := flags[i];
        for j := 0 to |f.patterns| {
          var k := DashCount(f.patterns[j]);
        }
      }
    }
  }

  /** The program's flag of the full example, as the builder chain leaves it. */
  method WorkDirFlag() returns (f: Flag)
    ensures fresh(f)
    ensures f.Value() == FlagValue(["-C", "--work-dir"], Some("Act as if run from this directory"), 0, 1, Some("DIR"), StringType)
  {
    f := new Flag(["-C", "--work-dir"]);
    f := f.SetDescription("Act as if run from this directory");
    f := f.SetMetavar("DIR");
  }

  /** The n-ary flag of the full example: no upper bound on its count. */
  method FilesFlag() returns (f: Flag)
    ensures fresh(f)
    ensures f.Value() == FlagValue(["files"], Some("Source files to build"), 0, AutoSize, Some("PATH"), StringType)
  {
    f := new Flag(["files"]);
    f := f.SetNary(true);
    f := f.SetMetavar("PATH");
    f := f.SetDescription("Source files to build");
  }

  /** The boolean flag of the full example. */
  method CleanFlag() returns (f: Flag)
    ensures fresh(f)
    ensures f.Value() == FlagValue(["--clean"], Some("Wether to clean intermediate artifacts before building"), 0, 1, None, Boolean)
  {
    f := new Flag(["--clean"]);
    f := f.SetIsBool(true);
    f := f.SetDescription("Wether to clean intermediate artifacts before building");
  }

  /** The "build" subcommand of the full example: its two flags in the order added. */
  method BuildSubcommand() returns (s: Subcommand)
    ensures fresh(s)
    ensures s.name == "build" && s.description == "Build a project or some files"
    ensures s.flags == [
      FlagValue(["files"], Some("Source files to build"), 0, AutoSize, Some("PATH"), StringType),
      FlagValue(["--clean"], Some("Wether to clean intermediate artifacts before building"), 0, 1, None, Boolean)]
  {
    s := new Subcommand("build");
    s := s.SetDescription("Build a project or some files");
    var files := FilesFlag();
    s := s.AddFlag(files);
    var clean := CleanFlag();
    s := s.AddFlag(clean);
  }

  /**
   * The builder chain of the full example: one program flag and the
   * "build" subcommand, each holding the settings made on it.
   */
  method FullExample() returns (p: Program)
    ensures fresh(p)
    ensures p.name == "myprog" && p.author == "Sam Vervaeck"
    ensures p.flags == [FlagValue(["-C", "--work-dir"], Some("Act as if run from this directory"), 0, 1, Some("DIR"), StringType)]
    ensures |p.subcommands.Pairs()| == 1 && p.subcommands.Pairs()[0].0 == "build"
    ensures |p.subcommands.Pairs()[0].1.flags| == 2
    ensures p.subcommands.Pairs()[0].1.flags[0].maxCount == AutoSize
    ensures p.subcommands.Pairs()[0].1.flags[1].flagType == Boolean
  {
    p := new Program("myprog");
    p := p.SetDescription("A sample program that can manage a code project");
    p := p.SetAuthor("Sam Vervaeck");
    var workDir := WorkDirFlag();
    p := p.AddFlag(workDir);
    var build := BuildSubcommand();
    p := p.AddSubcommand(build);
  }
}

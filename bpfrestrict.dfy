/**
 * Option decoding of the bpfrestrict loader (bpf/bpfrestrict.c): the
 * length limits on the command-line arguments, the profile string turned
 * into a permission level, the --block string turned into a set of blocked
 * bpf() commands, what is written into the option map, and the banner
 * printed on success.
 *
 * The BPFLOCK_* values come from a header that is not part of this model;
 * they are kept symbolic. A permission level is one of the three profile
 * constants or the literal 0 the level is reset to; a block mask is the set
 * of commands whose bits are set.
 */
module BpfRestrict {
  import opened Wrappers
  import opened Text

  /** Buffer sizes, terminating NUL included, checked by parse_arg. */
  const BLOCK_ARG_SIZE := 128
  const PROFILE_ARG_SIZE := 64

  /** opt.perm_int: 0 (the reset value) or one of the BPFLOCK_P_* profiles. */
  datatype Perm = PermReset | PermAllow | PermBaseline | PermRestricted

  /** The bpf() commands that --block can name. */
  datatype BlockOp = MapCreate | ProgLoad | BtfLoad | BpfWrite

  /** Keys of the bpfrestrict option map: BPFLOCK_BPF_PERM and BPFLOCK_BPF_OP. */
  datatype OptKey = PermKey | OpKey

  datatype OptValue = PermValue(perm: Perm) | OpsValue(ops: set<BlockOp>)

  /** What parse_arg does with one option. */
  datatype ArgOutcome =
    | Parsed       // returns 0
    | HelpExit     // argp_state_help with ARGP_HELP_STD_HELP: help printed, exit
    | UsageExit    // argp_usage: usage printed, exit with an error status
    | Unknown      // ARGP_ERR_UNKNOWN

  /** Which of the three success messages main prints. */
  datatype Banner = RestrictedBanner | BaselineBanner | AllowBanner

  const AllOps: set<BlockOp> := {MapCreate, ProgLoad, BtfLoad, BpfWrite}

  /** The name --block uses for each command. */
  function CommandName(op: BlockOp): (name: string)
    ensures name != [] && ',' !in name
  {
    match op
    case MapCreate => "map_create"
    case ProgLoad => "prog_load"
    case BtfLoad => "btf_load"
    case BpfWrite => "bpf_write"
  }

  // -------------------------------------------------------------------
  // The C library string functions. A string here is a C string's bytes
  // up to its terminating NUL, one char per byte.
  // -------------------------------------------------------------------

  /** The bytes of a C string before its NUL: each non-zero and below 0x100. */
  predicate IsCString(s: string) {
    forall i :: 0 <= i < |s| ==> 0 < s[i] as int < 0x100
  }

  /** The at most n characters strncmp looks at before the terminator. */
  function Bounded(s: string, n: nat): string {
    if n <= |s| then s[..n] else s
  }

  /**
   * strncmp(s, t, n) == 0: the first n characters agree, where comparison
   * stops early when both strings end together (their NUL terminators).
   */
  predicate StrNCmpZero(s: string, t: string, n: nat)
    ensures StrNCmpZero(s, t, n) <==> Bounded(s, n) == Bounded(t, n)
  {
    if n == 0 then true
    else if s == [] || t == [] then s == [] && t == []
    else
      BoundedCons(s, n);
      BoundedCons(t, n);
      s[0] == t[0] && StrNCmpZero(s[1..], t[1..], n - 1)
  }

  /** Bounding a non-empty string keeps its head and bounds its tail. */
  lemma {:induction false} BoundedCons(s: string, n: nat)
    requires s != [] && n > 0
    ensures Bounded(s, n) == [s[0]] + Bounded(s[1..], n - 1)
  {
    if n <= |s| {
      assert s[..n] == [s[0]] + s[1..][..n - 1];
    } else {
      assert s == [s[0]] + s[1..];
    }
  }

  /** Comparing with a literal over the literal's length is a prefix test. */
  lemma {:induction false} StrNCmpLiteralIsPrefix(s: string, lit: string)
    ensures StrNCmpZero(s, lit, |lit|) <==> lit <= s
  {
    if lit != [] && s != [] {
      StrNCmpLiteralIsPrefix(s[1..], lit[1..]);
      assert lit <= s <==> lit[0] == s[0] && lit[1..] <= s[1..];
    }
  }

  /** strstr(s, w), searching from index from: the first occurrence, if any. */
  function StrStr(s: string, w: string, from: nat): (r: Option<nat>)
    ensures r.Some? ==> from <= r.value <= |s| - |w| && OccursAt(s, w, r.value)
    decreases |s| - from
  {
    if from + |w| > |s| then None
    else if s[from..from + |w|] == w then Some(from)
    else StrStr(s, w, from + 1)
  }

  /**
   * strstr finds an occurrence exactly when there is one, and the one it
   * finds is the leftmost.
   */
  lemma {:induction false} StrStrFindsFirst(s: string, w: string, from: nat)
    ensures StrStr(s, w, from).Some? <==> exists k :: from <= k <= |s| - |w| && OccursAt(s, w, k)
    ensures StrStr(s, w, from).Some? ==>
      var k := StrStr(s, w, from).value;
      OccursAt(s, w, k) && from <= k && forall j :: from <= j < k ==> !OccursAt(s, w, j)
    decreases |s| - from
  {
    if from + |w| <= |s| {
      StrStrFindsFirst(s, w, from + 1);
      if s[from..from + |w|] != w {
        assert !OccursAt(s, w, from);
      } else {
        assert OccursAt(s, w, from);
      }
    }
  }

  lemma {:induction false} StrStrIsInfix(s: string, w: string)
    ensures StrStr(s, w, 0).Some? <==> IsInfix(w, s)
  {
    StrStrFindsFirst(s, w, 0);
  }

  // -------------------------------------------------------------------
  // What the options mean
  // -------------------------------------------------------------------

  /**
   * The permission level setup_bpf_opt_map stores for a profile. The
   * tests are by prefix, in this order. A profile starting with
   * "privileged" matches none of the branches, because its strncmp lacks
   * the "== 0", so the level keeps its reset value; every other profile
   * falls into the allow branch.
   */
  function ProfileLevel(perm: Option<string>): (p: Perm)
    ensures perm.None? ==> p == PermAllow
    ensures perm.Some? && "restricted" <= perm.value ==> p == PermRestricted
    ensures perm.Some? && !("restricted" <= perm.value) && "baseline" <= perm.value ==> p == PermBaseline
    ensures perm.Some? && !("restricted" <= perm.value || "baseline" <= perm.value || "privileged" <= perm.value)
      ==> p == PermAllow
    ensures p == PermReset <==> perm.Some? && "privileged" <= perm.value
    ensures perm.Some? && ("allow" <= perm.value || "none" <= perm.value) ==> p == PermAllow
  {
    match perm
    case None => PermAllow
    case Some(s) =>
      PrefixesExclusive(s, "privileged", "restricted");
      PrefixesExclusive(s, "privileged", "baseline");
      PrefixesExclusive(s, "allow", "restricted");
      PrefixesExclusive(s, "allow", "baseline");
      PrefixesExclusive(s, "none", "restricted");
      PrefixesExclusive(s, "none", "baseline");
      PrefixesExclusive(s, "allow", "privileged");
      PrefixesExclusive(s, "none", "privileged");
      if "restricted" <= s then PermRestricted
      else if "baseline" <= s then PermBaseline
      else if "privileged" <= s then PermReset
      else PermAllow
  }

  /** The commands whose names occur somewhere in the --block argument. */
  function BlockMask(blockOp: Option<string>): (ops: set<BlockOp>)
    ensures ops <= AllOps
    ensures blockOp.None? ==> ops == {}
  {
    match blockOp
    case None => {}
    case Some(b) =>
      (if IsInfix("map_create", b) then {MapCreate} else {})
      + (if IsInfix("prog_load", b) then {ProgLoad} else {})
      + (if IsInfix("btf_load", b) then {BtfLoad} else {})
      + (if IsInfix("bpf_write", b) then {BpfWrite} else {})
  }

  /**
   * A mask holds a command exactly when the command's name occurs in the
   * argument, and holds nothing else.
   */
  lemma {:induction false} BlockMaskMembers(b: string, op: BlockOp)
    ensures op in BlockMask(Some(b)) <==> IsInfix(CommandName(op), b)
  {
    match op
    case MapCreate =>
    case ProgLoad =>
    case BtfLoad =>
    case BpfWrite =>
  }

  /**
   * Joining two --block arguments with a comma blocks the union of what
   * each blocks: the mask ignores order and repetition.
   */
  lemma {:induction false} BlockMaskOfList(a: string, b: string)
    ensures BlockMask(Some(a + "," + b)) == BlockMask(Some(a)) + BlockMask(Some(b))
  {
    forall op | op in AllOps
      ensures op in BlockMask(Some(a + "," + b)) <==> op in BlockMask(Some(a)) + BlockMask(Some(b))
    {
      assert a + "," + b == a + [','] + b;
      InfixAcrossSeparator(a, ',', b, CommandName(op));
      BlockMaskMembers(a + "," + b, op);
      BlockMaskMembers(a, op);
      BlockMaskMembers(b, op);
    }
  }

  lemma {:induction false} BlockMaskOrderAndRepetition(a: string, b: string)
    ensures BlockMask(Some(a + "," + b)) == BlockMask(Some(b + "," + a))
    ensures BlockMask(Some(a + "," + a)) == BlockMask(Some(a))
  {
    var ma, mb := BlockMask(Some(a)), BlockMask(Some(b));
    BlockMaskOfList(a, b);
    BlockMaskOfList(b, a);
    BlockMaskOfList(a, a);
    assert ma + mb == mb + ma;
    assert ma + ma == ma;
  }

  /** The banner main prints is chosen by the stored level alone. */
  function SuccessBanner(p: Perm): (b: Banner)
    ensures b == RestrictedBanner <==> p == PermRestricted
    ensures b == BaselineBanner <==> p == PermBaseline
  {
    if p == PermRestricted then RestrictedBanner
    else if p == PermBaseline then BaselineBanner
    else AllowBanner
  }

  /**
   * For a given profile the banner announces "restricted" or "baseline"
   * only for those prefixes; every other profile, "privileged" included,
   * is announced as "allow".
   */
  lemma {:induction false} BannerForProfile(profile: string)
    ensures SuccessBanner(ProfileLevel(Some(profile))) == RestrictedBanner <==> "restricted" <= profile
    ensures SuccessBanner(ProfileLevel(Some(profile))) == BaselineBanner <==> !("restricted" <= profile) && "baseline" <= profile
    ensures "privileged" <= profile ==>
      ProfileLevel(Some(profile)) == PermReset && SuccessBanner(ProfileLevel(Some(profile))) == AllowBanner
  {
    PrefixesExclusive(profile, "privileged", "restricted");
    PrefixesExclusive(profile, "privileged", "baseline");
  }

  /** Two literals that differ in their first character cannot both start a string. */
  lemma {:induction false} PrefixesExclusive(s: string, a: string, b: string)
    requires a != [] && b != [] && a[0] != b[0]
    ensures !(a <= s && b <= s)
  {
  }

  /**
   * The strncmp chain of setup_bpf_opt_map, test by test: each literal
   * comparison is a prefix test, and the literals exclude one another.
   */
  lemma {:induction false} ProfileTests(p: string)
    ensures StrNCmpZero(p, "restricted", 10) <==> "restricted" <= p
    ensures StrNCmpZero(p, "baseline", 8) <==> "baseline" <= p
    ensures StrNCmpZero(p, "allow", 5) <==> "allow" <= p
    ensures StrNCmpZero(p, "none", 4) <==> "none" <= p
    ensures StrNCmpZero(p, "privileged", 10) <==> "privileged" <= p
    ensures "allow" <= p || "none" <= p ==> !("privileged" <= p)
  {
    StrNCmpLiteralIsPrefix(p, "restricted");
    StrNCmpLiteralIsPrefix(p, "baseline");
    StrNCmpLiteralIsPrefix(p, "allow");
    StrNCmpLiteralIsPrefix(p, "none");
    StrNCmpLiteralIsPrefix(p, "privileged");
    PrefixesExclusive(p, "allow", "privileged");
    PrefixesExclusive(p, "none", "privileged");
  }

  /** The four strstr tests of setup_bpf_opt_map build exactly the mask. */
  lemma {:induction false} BlockTests(b: string, mapCreate: bool, progLoad: bool, btfLoad: bool, bpfWrite: bool)
    requires mapCreate == StrStr(b, "map_create", 0).Some?
    requires progLoad == StrStr(b, "prog_load", 0).Some?
    requires btfLoad == StrStr(b, "btf_load", 0).Some?
    requires bpfWrite == StrStr(b, "bpf_write", 0).Some?
    ensures BlockMask(Some(b)) ==
      (if mapCreate then {MapCreate} else {}) + (if progLoad then {ProgLoad} else {})
      + (if btfLoad then {BtfLoad} else {}) + (if bpfWrite then {BpfWrite} else {})
  {
    StrStrIsInfix(b, "map_create");
    StrStrIsInfix(b, "prog_load");
    StrStrIsInfix(b, "btf_load");
    StrStrIsInfix(b, "bpf_write");
  }

  /** The option map after setup_bpf_opt_map has written a level and a mask. */
  function WrittenOptions(old_: map<OptKey, OptValue>, p: Perm, ops: set<BlockOp>): (m: map<OptKey, OptValue>)
    ensures PermKey in m && m[PermKey] == PermValue(p)
    ensures OpKey in m <==> ops != {} || OpKey in old_
    ensures ops != {} ==> m[OpKey] == OpsValue(ops)
    ensures ops == {} && OpKey in old_ ==> m[OpKey] == old_[OpKey]
  {
    var withPerm := old_[PermKey := PermValue(p)];
    if ops != {} then withPerm[OpKey := OpsValue(ops)] else withPerm
  }

  // -------------------------------------------------------------------
  // The global options and the option map
  // -------------------------------------------------------------------

  /** The static `opt` struct and the contents of bpfrestrict_map. */
  class Options {
    var permInt: Perm
    var blockOpInt: set<BlockOp>
    var perm: Option<string>
    var blockOp: Option<string>
    var optMap: map<OptKey, OptValue>

    /** The stored arguments are C strings, as argv hands them over. */
    predicate Valid()
      reads this
    {
      (perm.Some? ==> IsCString(perm.value)) && (blockOp.Some? ==> IsCString(blockOp.value))
    }

    /** `opt = {}`; the option map starts empty. */
    constructor ()
      ensures Valid()
      ensures permInt == PermReset && blockOpInt == {}
      ensures perm == None && blockOp == None && optMap == map[]
    {
      permInt, blockOpInt := PermReset, {};
      perm, blockOp := None, None;
      optMap := map[];
    }

    /**
     * parse_arg: -b and -p store their argument unless it does not fit
     * its buffer together with the NUL, in which case argp prints the
     * usage and exits. argp hands over the key as an int: the short
     * options' characters, or one of its own special keys (ARGP_KEY_ARG,
     * ARGP_KEY_END and the like, outside the character range), all of
     * which fall to the default case. arg is the argument's bytes before
     * its NUL, so |arg| is strlen(arg).
     */
    method ParseArg(key: int, arg: string) returns (r: ArgOutcome)
      requires Valid() && IsCString(arg)
      modifies this`perm, this`blockOp
      ensures Valid()
      ensures key == 'h' as int ==> r == HelpExit
      ensures key == 'b' as int ==> (r == Parsed <==> |arg| <= 127) && (r != Parsed ==> r == UsageExit)
      ensures key == 'p' as int ==> (r == Parsed <==> |arg| <= 63) && (r != Parsed ==> r == UsageExit)
      ensures key != 'h' as int && key != 'b' as int && key != 'p' as int ==> r == Unknown
      ensures blockOp == if key == 'b' as int && r == Parsed then Some(arg) else old(blockOp)
      ensures perm == if key == 'p' as int && r == Parsed then Some(arg) else old(perm)
    {
      if key == 'h' as int {
        return HelpExit;
      } else if key == 'b' as int {
        if |arg| + 1 > BLOCK_ARG_SIZE {
          return UsageExit;
        }
        blockOp := Some(arg);
      } else if key == 'p' as int {
        if |arg| + 1 > PROFILE_ARG_SIZE {
          return UsageExit;
        }
        perm := Some(arg);
      } else {
        return Unknown;
      }
      return Parsed;
    }

    /**
     * setup_bpf_opt_map, given what bpf_map__fd returned for the option
     * map (mapFd) and the caller's *fd. Both the level and the mask are
     * reset first; a negative mapFd is returned before anything is written.
     * Otherwise *fd becomes mapFd, the level is always written and the mask
     * only when some command is blocked.
     */
    method SetupOptMap(mapFd: int, fd: int) returns (ret: int, fdOut: int)
      modifies this`permInt, this`blockOpInt, this`optMap
      ensures mapFd < 0 ==> ret == mapFd && fdOut == fd && optMap == old(optMap)
      ensures mapFd < 0 ==> permInt == PermReset && blockOpInt == {}
      ensures mapFd >= 0 ==> ret == 0 && fdOut == mapFd
      ensures mapFd >= 0 ==> permInt == ProfileLevel(perm) && blockOpInt == BlockMask(blockOp)
      ensures mapFd >= 0 ==> optMap == WrittenOptions(old(optMap), permInt, blockOpInt)
    {
      permInt := PermReset;
      blockOpInt := {};

      if mapFd < 0 {
        return mapFd, fd;
      }

      DecodeProfile();
      DecodeBlock();

      fdOut := mapFd;

      WriteOptionMap();
      return 0, fdOut;
    }

    /**
     * The profile tests of setup_bpf_opt_map, run on a level that has just
     * been reset. The last test's missing "== 0" is kept: a profile that
     * starts with "privileged" leaves the level at its reset value.
     */
    method DecodeProfile()
      requires permInt == PermReset
      modifies this`permInt
      ensures permInt == ProfileLevel(perm)
    {
      if perm.None? {
        permInt := PermAllow;
      } else {
        var p := perm.value;
        ProfileTests(p);
        if StrNCmpZero(p, "restricted", 10) {
          permInt := PermRestricted;
        } else if StrNCmpZero(p, "baseline", 8) {
          permInt := PermBaseline;
        } else if StrNCmpZero(p, "allow", 5)
               || StrNCmpZero(p, "none", 4)
               || !StrNCmpZero(p, "privileged", 10) {
          permInt := PermAllow;
        }
      }
    }

    /**
     * The four strstr tests of setup_bpf_opt_map: each found command name
     * ORs its bit into the mask.
     */
    method DecodeBlock()
      modifies this`blockOpInt
      ensures blockOpInt == old(blockOpInt) + BlockMask(blockOp)
    {
      if blockOp.Some? {
        var b := blockOp.value;
        var mapCreate := StrStr(b, "map_create", 0).Some?;
        var progLoad := StrStr(b, "prog_load", 0).Some?;
        var btfLoad := StrStr(b, "btf_load", 0).Some?;
        var bpfWrite := StrStr(b, "bpf_write", 0).Some?;
        BlockTests(b, mapCreate, progLoad, btfLoad, bpfWrite);
        if mapCreate {
          blockOpInt := blockOpInt + {MapCreate};
        }
        if progLoad {
          blockOpInt := blockOpInt + {ProgLoad};
        }
        if btfLoad {
          blockOpInt := blockOpInt + {BtfLoad};
        }
        if bpfWrite {
          blockOpInt := blockOpInt + {BpfWrite};
        }
      }
    }

    /**
     * The two bpf_map_update_elem calls at the end of setup_bpf_opt_map
     * (with BPF_ANY, so an existing value is overwritten).
     */
    method WriteOptionMap()
      modifies this`optMap
      ensures optMap == WrittenOptions(old(optMap), permInt, blockOpInt)
    {
      optMap := optMap[PermKey := PermValue(permInt)];
      if blockOpInt != {} {
        optMap := optMap[OpKey := OpsValue(blockOpInt)];
      }
    }
  }

  /**
   * setup_bpf_env_map, given *fd, what bpf_map__fd returned for the
   * namespace map, and what pin_init_task_ns returned. An fd the caller
   * already holds is kept and nothing is done; on every error *fd is left
   * as it was.
   */
  method SetupEnvMap(fd: int, nsMapFd: int, pinErr: int) returns (ret: int, fdOut: int)
    ensures fd > 0 ==> ret == 0 && fdOut == fd
    ensures ret < 0 ==> fdOut == fd
    ensures ret < 0 <==> fd <= 0 && (nsMapFd < 0 || pinErr < 0)
    ensures fd <= 0 && nsMapFd < 0 ==> ret == nsMapFd
    ensures fd <= 0 && nsMapFd >= 0 ==> ret == pinErr
    ensures fd <= 0 && ret >= 0 ==> fdOut == nsMapFd
  {
    if fd > 0 {
      return 0, fd;
    }
    var f := nsMapFd;
    if f < 0 {
      return f, fd;
    }
    var err := pinErr;
    if err < 0 {
      return err, fd;
    }
    fdOut := f;
    return err, fdOut;
  }
}

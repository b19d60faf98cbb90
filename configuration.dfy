/** The tool's run-time configuration: the fields the command-line options
    set, one by one, and the validation that accepts or ends the process. */
module Configuration {
  import opened CLib
  import opened ExecutionCodes

  /** Conversion factor from milliseconds to microseconds. */
  const USECS_2_MSECS: int := 1000
  /** Largest transmit delay, in milliseconds. */
  const MAX_TX_DELAY: int := 1000
  /** Size of the interface-name buffer: IF_NAMESIZE characters and a NUL. */
  const LEN_LL_IF_NAME_BUFFER: nat := IF_NAMESIZE + 1

  /** `configuration_t`, as a value. */
  datatype Config = Config(isTransmitter: bool, isReceiver: bool, lsap: int, ifName: string,
                           txDelay: int, frameType: int)

  /** The C string held by the interface-name buffer. */
  function IfNameOf(c: Config): string
  {
    CStr(c.ifName)
  }

  /** `strncpy(dest, src, n)`: the first n characters of `dest` become the
      characters of the C string `src`, padded with NULs; the rest of `dest`
      is untouched. */
  function StrNCpy(dest: string, src: string, n: nat): (r: string)
    requires n <= |dest|
    ensures |r| == |dest| && r[n..] == dest[n..]
    ensures forall k :: 0 <= k < n ==> r[k] == if k < StrLen(src) then src[k] else '\0'
  {
    seq(|dest|, k requires 0 <= k < |dest| =>
      if k >= n then dest[k] else if k < StrLen(src) then src[k] else '\0')
  }

  /** Copying a name with `strncpy` into a buffer that ends in a NUL leaves
      the first IF_NAMESIZE characters of the name there, and no more. */
  lemma CopiedName(buffer: string, name: string)
    requires |buffer| == LEN_LL_IF_NAME_BUFFER && buffer[IF_NAMESIZE] == '\0'
    ensures CStr(StrNCpy(buffer, name, IF_NAMESIZE)) ==
      CStr(name)[..if StrLen(name) < IF_NAMESIZE then StrLen(name) else IF_NAMESIZE]
  {
    var r := StrNCpy(buffer, name, IF_NAMESIZE);
    var m := if StrLen(name) < IF_NAMESIZE then StrLen(name) else IF_NAMESIZE;
    assert r[m] == '\0';
  }

  /** A command-line option as getopt_long() delivers it, with the argument
      of -t, -l and -f already converted by atoi(). */
  datatype Opt = Tx(delay: int) | Rx | Lsap(lsap: int) | If(name: string) | Frame(frameType: int)
               | Verbose | Version | Help

  /** Options after which the process ends (printing the version or help). */
  predicate Exits(o: Opt)
  {
    o.Version? || o.Help?
  }

  /** The field assignments of one option in `read_configuration`. */
  function Apply(c: Config, o: Opt): (r: Config)
    requires |c.ifName| == LEN_LL_IF_NAME_BUFFER
    ensures |r.ifName| == LEN_LL_IF_NAME_BUFFER
    ensures o.Tx? ==> r == c.(isTransmitter := true, txDelay := o.delay)
    ensures o.Rx? ==> r == c.(isReceiver := true)
    ensures o.Lsap? ==> r == c.(lsap := o.lsap)
    ensures o.Frame? ==> r == c.(frameType := o.frameType)
    ensures o.If? ==> r == c.(ifName := StrNCpy(c.ifName, o.name, IF_NAMESIZE))
    ensures !o.Tx? && !o.Rx? && !o.Lsap? && !o.Frame? && !o.If? ==> r == c
  {
    match o
    case Tx(d) => c.(isTransmitter := true, txDelay := d)
    case Rx => c.(isReceiver := true)
    case Lsap(l) => c.(lsap := l)
    case If(name) => c.(ifName := StrNCpy(c.ifName, name, IF_NAMESIZE))
    case Frame(f) => c.(frameType := f)
    case _ => c
  }

  /** The options applied in order. */
  function ApplyAll(c: Config, opts: seq<Opt>): (r: Config)
    requires |c.ifName| == LEN_LL_IF_NAME_BUFFER
    ensures |r.ifName| == LEN_LL_IF_NAME_BUFFER
  {
    if opts == [] then c else Apply(ApplyAll(c, opts[..|opts| - 1]), opts[|opts| - 1])
  }

  /** Applying one more option extends the prefix applied so far. */
  lemma ApplyAllStep(c: Config, opts: seq<Opt>, i: nat)
    requires |c.ifName| == LEN_LL_IF_NAME_BUFFER && i < |opts|
    ensures ApplyAll(c, opts[..i + 1]) == Apply(ApplyAll(c, opts[..i]), opts[i])
  {
    assert opts[..i + 1][..i] == opts[..i];
  }

  /** The first option that ends the process, or |opts| if there is none. */
  function FirstExit(opts: seq<Opt>): (k: nat)
    ensures k <= |opts| && (k < |opts| ==> Exits(opts[k]))
    ensures forall j :: 0 <= j < k ==> !Exits(opts[j])
  {
    if opts == [] then 0
    else if Exits(opts[0]) then 0
    else 1 + FirstExit(opts[1..])
  }

  /** An exiting option that no earlier option pre-empts is the first. */
  lemma ExitAt(opts: seq<Opt>, i: nat)
    requires i <= FirstExit(opts) && i < |opts| && Exits(opts[i])
    ensures FirstExit(opts) == i
  {
  }

  /** Past an option that does not exit, the first exit is further on. */
  lemma PastNoExit(opts: seq<Opt>, i: nat)
    requires i <= FirstExit(opts) && i < |opts| && !Exits(opts[i])
    ensures i < FirstExit(opts)
  {
  }

  /** A mode flag is set after the options exactly when it was set before or
      some option sets it; nothing clears it. */
  lemma {:induction false} ModeFlags(c: Config, opts: seq<Opt>)
    requires |c.ifName| == LEN_LL_IF_NAME_BUFFER
    ensures ApplyAll(c, opts).isTransmitter <==> c.isTransmitter || exists k :: 0 <= k < |opts| && opts[k].Tx?
    ensures ApplyAll(c, opts).isReceiver <==> c.isReceiver || exists k :: 0 <= k < |opts| && opts[k].Rx?
  {
    if opts != [] {
      var init := opts[..|opts| - 1];
      ModeFlags(c, init);
      assert forall k :: 0 <= k < |init| ==> init[k] == opts[k];
    }
  }

  /** The last -t option sets the raw delay; with none, it is left as it was. */
  lemma {:induction false} LastDelayWins(c: Config, opts: seq<Opt>)
    requires |c.ifName| == LEN_LL_IF_NAME_BUFFER
    ensures (forall k :: 0 <= k < |opts| ==> !opts[k].Tx?) ==> ApplyAll(c, opts).txDelay == c.txDelay
    ensures forall k :: 0 <= k < |opts| && opts[k].Tx? && (forall j :: k < j < |opts| ==> !opts[j].Tx?) ==>
      ApplyAll(c, opts).txDelay == opts[k].delay
  {
    if opts != [] {
      var n := |opts| - 1;
      var init := opts[..n];
      LastDelayWins(c, init);
      assert ApplyAll(c, opts) == Apply(ApplyAll(c, init), opts[n]);
      if forall k :: 0 <= k < |opts| ==> !opts[k].Tx? {
        assert forall k :: 0 <= k < |init| ==> !init[k].Tx?;
      }
      forall k | 0 <= k < |opts| && opts[k].Tx? && (forall j :: k < j < |opts| ==> !opts[j].Tx?)
        ensures ApplyAll(c, opts).txDelay == opts[k].delay
      {
        if k < n {
          assert !opts[n].Tx? && init[k] == opts[k];
          assert forall j :: k < j < |init| ==> !init[j].Tx?;
        }
      }
    }
  }

  /** Why `check_configuration` ends the process. */
  datatype CheckError = NullConfig | BadMode | BadTxDelay | BadLsap | NoIfName | NoFrameType

  /** `check_configuration` on a configuration: the first failing check, and
      the configuration as the code leaves it (a transmitter's delay is
      converted to microseconds as soon as it has passed its check). */
  function Check(c: Config): (r: (Option<CheckError>, Config))
    ensures r.0.None? <==>
      c.isTransmitter != c.isReceiver && (c.isTransmitter ==> 0 < c.txDelay <= MAX_TX_DELAY) &&
      c.lsap > 0 && StrLen(c.ifName) > 0 && c.frameType > 0
    ensures r.0 == Some(BadMode) <==> c.isTransmitter == c.isReceiver
    ensures r.0.None? && c.isTransmitter ==> r.1 == c.(txDelay := USECS_2_MSECS * c.txDelay)
    ensures r.0.None? && c.isTransmitter ==> 1000 <= r.1.txDelay <= 1000000
    ensures r.0.None? && c.isReceiver ==> r.1 == c
  {
    if c.isTransmitter == c.isReceiver then (Some(BadMode), c)
    else if c.isTransmitter && (c.txDelay <= 0 || c.txDelay > MAX_TX_DELAY) then (Some(BadTxDelay), c)
    else
      var d := if c.isTransmitter then c.(txDelay := USECS_2_MSECS * c.txDelay) else c;
      if d.lsap <= 0 then (Some(BadLsap), d)
      else if StrLen(d.ifName) <= 0 then (Some(NoIfName), d)
      else if d.frameType <= 0 then (Some(NoFrameType), d)
      else (None, d)
  }

  /** An accepted configuration passes the check again once its delay is
      back in milliseconds: the check and the conversion agree. */
  lemma CheckIsStable(c: Config)
    requires Check(c).0.None?
    ensures c.isTransmitter ==> Check(Check(c).1.(txDelay := Check(c).1.txDelay / USECS_2_MSECS)) == Check(c)
    ensures c.isReceiver ==> Check(Check(c).1) == Check(c)
  {
    if c.isTransmitter {
      var d := Check(c).1;
      assert d.txDelay == 1000 * c.txDelay;
      assert d.txDelay / USECS_2_MSECS == c.txDelay;
      assert d.(txDelay := d.txDelay / USECS_2_MSECS) == c;
    }
  }

  /** `configuration_t`. */
  class Configuration {
    var isTransmitter: bool
    var isReceiver: bool
    var lsap: int
    const ifName: array<char>
    var txDelay: int
    var frameType: int

    ghost predicate Valid()
      reads this
    {
      ifName.Length == LEN_LL_IF_NAME_BUFFER
    }

    ghost function View(): Config
      reads this, ifName
    {
      Config(isTransmitter, isReceiver, lsap, ifName[..], txDelay, frameType)
    }

    /** A cleared configuration. */
    constructor ()
      ensures Valid() && fresh(ifName)
      ensures View() == Config(false, false, 0, seq(LEN_LL_IF_NAME_BUFFER, _ => '\0'), 0, 0)
    {
      isTransmitter, isReceiver, lsap, txDelay, frameType := false, false, 0, 0, 0;
      ifName := new char[LEN_LL_IF_NAME_BUFFER](_ => '\0');
      new;
      assert ifName[..] == seq(LEN_LL_IF_NAME_BUFFER, _ => '\0');
    }

    /** The `strncpy(config->if_name, optarg, IF_NAMESIZE)` of -i: the
        buffer's first IF_NAMESIZE characters, its terminator untouched. */
    method CopyName(name: string)
      requires Valid()
      modifies ifName
      ensures ifName[..] == StrNCpy(old(ifName[..]), name, IF_NAMESIZE)
    {
      var copy := StrNCpy(ifName[..], name, IF_NAMESIZE);
      forall k | 0 <= k < IF_NAMESIZE {
        ifName[k] := copy[k];
      }
      assert ifName[..] == copy;
    }

    /** `read_configuration`: the options in order, each assigning its
        field; -v or -h (and any option getopt_long() does not know, passed
        here as Help) end the process with success, before the options after
        them are looked at. `verbose` is whether -e was seen. */
    method ReadConfiguration(opts: seq<Opt>) returns (rc: int, exited: bool, verbose: bool)
      requires Valid()
      modifies this, ifName
      ensures Valid()
      ensures exited <==> FirstExit(opts) < |opts|
      ensures !exited ==> rc == EX_OK
      ensures View() == ApplyAll(old(View()), opts[..FirstExit(opts)])
      ensures verbose <==> exists k :: 0 <= k < FirstExit(opts) && opts[k].Verbose?
    {
      ghost var start := View();
      var i := 0;
      verbose := false;
      exited := false;
      rc := EX_OK;
      while i < |opts|
        invariant 0 <= i <= FirstExit(opts)
        invariant Valid()
        invariant View() == ApplyAll(start, opts[..i])
        invariant verbose <==> exists k :: 0 <= k < i && opts[k].Verbose?
        invariant !exited
        decreases |opts| - i
      {
        ghost var before := View();
        match opts[i] {
        case Tx(d) =>
          isTransmitter := true;
          txDelay := d;
        case Rx =>
          isReceiver := true;
        case Lsap(l) =>
          lsap := l;
        case If(name) =>
          CopyName(name);
        case Frame(f) =>
          frameType := f;
        case Verbose =>
          verbose := true;
        case Version =>
          ExitAt(opts, i);
          exited := true;
          return;
        case Help =>
          ExitAt(opts, i);
          exited := true;
          return;
        }
        assert View() == Apply(before, opts[i]);
        ApplyAllStep(start, opts, i);
        PastNoExit(opts, i);
        i := i + 1;
      }
    }

    /** `check_configuration`: `cfg` NULL, then each check in turn; the
        first one failing ends the process (`exit`), otherwise the result is
        EX_OK. The fields end as Check says. */
    static method CheckConfiguration(cfg: Configuration?) returns (rc: int, exit: Option<CheckError>)
      requires cfg != null ==> cfg.Valid()
      modifies cfg
      ensures cfg == null ==> exit == Some(NullConfig)
      ensures cfg != null ==> (exit, cfg.View()) == Check(old(cfg.View()))
      ensures exit.None? ==> rc == EX_OK
    {
      rc := EX_OK;
      if cfg == null {
        exit := Some(NullConfig);
        return;
      }
      if cfg.isTransmitter == cfg.isReceiver {
        exit := Some(BadMode);
        return;
      }
      if cfg.isTransmitter {
        if cfg.txDelay <= 0 || cfg.txDelay > MAX_TX_DELAY {
          exit := Some(BadTxDelay);
          return;
        }
        cfg.txDelay := USECS_2_MSECS * cfg.txDelay;
      }
      if cfg.lsap <= 0 {
        exit := Some(BadLsap);
        return;
      }
      if StrLen(cfg.ifName[..]) <= 0 {
        exit := Some(NoIfName);
        return;
      }
      if cfg.frameType <= 0 {
        exit := Some(NoFrameType);
        return;
      }
      exit := None;
    }
  }
}

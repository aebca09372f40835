/**
 * The console thread of srsenb (input_loop): every key 't' read from
 * standard input flips the global trace flag do_metrics and passes the new
 * flag to metrics_stdout::toggle_print.
 *
 * The thread runs until the SIGINT handler clears `running`; which extractions it
 * performs before that happens is a parameter, `inputs`, in the order they
 * happen.  Each is one `cin >> key` extraction of a char: Some(c) when it
 * delivers the next non-blank character c, None when it fails (end of
 * input), in which case `key` keeps the value it had.
 */
module Input {
  import opened Prelude

  /** The value of `key` after each extraction, starting from `key`. */
  function KeysAsRead(inputs: seq<Option<char>>, key: char): (keys: seq<char>)
    ensures |keys| == |inputs|
  {
    if inputs == [] then []
    else
      var k := if inputs[0].Some? then inputs[0].value else key;
      [k] + KeysAsRead(inputs[1..], k)
  }

  /** The characters the extractions delivered, failed extractions dropped. */
  function Typed(inputs: seq<Option<char>>): (typed: seq<char>)
    ensures |typed| <= |inputs|
  {
    if inputs == [] then []
    else (if inputs[0].Some? then [inputs[0].value] else []) + Typed(inputs[1..])
  }

  /** How many of the keys are 't'. */
  function CountT(keys: seq<char>): nat {
    if keys == [] then 0 else (if keys[0] == 't' then 1 else 0) + CountT(keys[1..])
  }

  /**
   * The arguments of the toggle_print calls the loop makes over `keys`,
   * starting with do_metrics == d.
   */
  function ToggleCalls(keys: seq<char>, d: bool): seq<bool> {
    if keys == [] then []
    else if keys[0] == 't' then [!d] + ToggleCalls(keys[1..], !d)
    else ToggleCalls(keys[1..], d)
  }

  /** do_metrics after the loop has handled `keys`, starting from d. */
  function FinalState(keys: seq<char>, d: bool): bool {
    if keys == [] then d
    else FinalState(keys[1..], if keys[0] == 't' then !d else d)
  }

  /**
   * input_loop (lines 327-344) as written, over the extractions it performs.
   * `key0` is the uninitialised `char key`, which a first failed extraction
   * leaves as it is; `metrics0` is do_metrics when the thread starts.
   */
  method InputLoop(inputs: seq<Option<char>>, key0: char, metrics0: bool)
    returns (doMetrics: bool, calls: seq<bool>)
    ensures calls == ToggleCalls(KeysAsRead(inputs, key0), metrics0)
    ensures doMetrics == FinalState(KeysAsRead(inputs, key0), metrics0)
  {
    ghost var keys := KeysAsRead(inputs, key0);
    var key := key0;
    doMetrics := metrics0;
    calls := [];
    var i := 0;
    while i < |inputs|
      invariant 0 <= i <= |inputs|
      invariant KeysAsRead(inputs[i..], key) == keys[i..]
      invariant calls + ToggleCalls(keys[i..], doMetrics) == ToggleCalls(keys, metrics0)
      invariant FinalState(keys[i..], doMetrics) == FinalState(keys, metrics0)
    {
      assert inputs[i..][1..] == inputs[i + 1..];
      assert keys[i..][1..] == keys[i + 1..];
      if inputs[i].Some? {
        key := inputs[i].value;
      }
      if key == 't' {
        doMetrics := !doMetrics;
        calls := calls + [doMetrics];
      }
      i := i + 1;
    }
  }

  /** One toggle_print call per 't'. */
  lemma {:induction false} ToggleCount(keys: seq<char>, d: bool)
    ensures |ToggleCalls(keys, d)| == CountT(keys)
  {
    if keys != [] {
      ToggleCount(keys[1..], d);
      ToggleCount(keys[1..], !d);
    }
  }

  /** do_metrics ends flipped exactly when there was an odd number of 't'. */
  lemma {:induction false} ToggleParity(keys: seq<char>, d: bool)
    ensures FinalState(keys, d) == (d != (CountT(keys) % 2 == 1))
  {
    if keys != [] {
      ToggleParity(keys[1..], if keys[0] == 't' then !d else d);
    }
  }

  /**
   * The calls alternate, starting with the opposite of the initial flag:
   * the first one starts the trace when it was off, the next stops it, and
   * so on.
   */
  lemma {:induction false} ToggleAlternates(keys: seq<char>, d: bool)
    ensures forall i | 0 <= i < |ToggleCalls(keys, d)| :: ToggleCalls(keys, d)[i] == (d != (i % 2 == 0))
  {
    if keys != [] {
      if keys[0] == 't' {
        ToggleAlternates(keys[1..], !d);
        var rest := ToggleCalls(keys[1..], !d);
        var calls := [!d] + rest;
        forall i | 1 <= i < |calls|
          ensures calls[i] == (d != (i % 2 == 0))
        {
          assert calls[i] == rest[i - 1];
          assert rest[i - 1] == (!d != ((i - 1) % 2 == 0));
          assert (i % 2 == 0) != ((i - 1) % 2 == 0);
        }
        assert ToggleCalls(keys, d) == calls;
      } else {
        ToggleAlternates(keys[1..], d);
        assert ToggleCalls(keys, d) == ToggleCalls(keys[1..], d);
      }
    }
  }

  /** The last call passes the flag the loop leaves behind. */
  lemma {:induction false} LastCallIsFinalState(keys: seq<char>, d: bool)
    ensures var calls := ToggleCalls(keys, d);
      calls != [] ==> calls[|calls| - 1] == FinalState(keys, d)
  {
    if keys != [] {
      var d' := if keys[0] == 't' then !d else d;
      LastCallIsFinalState(keys[1..], d');
      if ToggleCalls(keys[1..], d') == [] {
        NoCallsKeepState(keys[1..], d');
      }
    }
  }

  /** Without a call, the flag is unchanged. */
  lemma {:induction false} NoCallsKeepState(keys: seq<char>, d: bool)
    requires ToggleCalls(keys, d) == []
    ensures FinalState(keys, d) == d
  {
    if keys != [] {
      NoCallsKeepState(keys[1..], d);
    }
  }

  /** The keys split at the end of the inputs. */
  lemma {:induction false} KeysAsReadAppend(inputs: seq<Option<char>>, key: char, r: Option<char>)
    ensures var keys := KeysAsRead(inputs, key);
      var last := if keys == [] then key else keys[|keys| - 1];
      KeysAsRead(inputs + [r], key) == keys + [if r.Some? then r.value else last]
  {
    if inputs != [] {
      assert (inputs + [r])[1..] == inputs[1..] + [r];
      KeysAsReadAppend(inputs[1..], if inputs[0].Some? then inputs[0].value else key, r);
    }
  }

  lemma {:induction false} ToggleCallsAppend(keys: seq<char>, c: char, d: bool)
    ensures ToggleCalls(keys + [c], d)
         == ToggleCalls(keys, d) + (if c == 't' then [!FinalState(keys, d)] else [])
  {
    if keys == [] {
      assert [c][1..] == [];
    } else {
      assert (keys + [c])[1..] == keys[1..] + [c];
      ToggleCallsAppend(keys[1..], c, if keys[0] == 't' then !d else d);
    }
  }

  /**
   * As written, a failed extraction after a 't' repeats it: at end of input
   * every further pass of the loop toggles the trace again.
   */
  lemma EndOfInputRepeatsT(inputs: seq<Option<char>>, key: char, d: bool)
    requires var keys := KeysAsRead(inputs, key); keys != [] && keys[|keys| - 1] == 't'
    ensures var keys := KeysAsRead(inputs, key);
      ToggleCalls(KeysAsRead(inputs + [None], key), d)
        == ToggleCalls(keys, d) + [!FinalState(keys, d)]
  {
    KeysAsReadAppend(inputs, key, None);
    ToggleCallsAppend(KeysAsRead(inputs, key), 't', d);
  }

  /** The smallest case: 't' then end of input calls toggle_print(true) then toggle_print(false). */
  lemma EndOfInputCounterexample(key: char)
    ensures ToggleCalls(KeysAsRead([Some('t'), None], key), false) == [true, false]
  {
    assert KeysAsRead([Some('t'), None], key) == ['t', 't'] by {
      assert [Some('t'), None][1..] == [None];
    }
    assert ['t', 't'][1..] == ['t'];
  }

  /** The evidently intended loop: only characters actually typed toggle. */
  function TypedToggleCalls(inputs: seq<Option<char>>, d: bool): (calls: seq<bool>)
    ensures |calls| == CountT(Typed(inputs))
  {
    ToggleCount(Typed(inputs), d);
    ToggleCalls(Typed(inputs), d)
  }

  /** A failed extraction adds no call to the intended loop. */
  lemma {:induction false} FailedReadsIgnored(inputs: seq<Option<char>>, d: bool)
    ensures TypedToggleCalls(inputs + [None], d) == TypedToggleCalls(inputs, d)
  {
    TypedAppendNone(inputs);
  }

  lemma {:induction false} TypedAppendNone(inputs: seq<Option<char>>)
    ensures Typed(inputs + [None]) == Typed(inputs)
  {
    if inputs == [] {
      assert (inputs + [None])[1..] == [];
    } else {
      assert (inputs + [None])[1..] == inputs[1..] + [None];
      TypedAppendNone(inputs[1..]);
    }
  }

  /** As long as no extraction fails, the loop as written is the intended one. */
  lemma {:induction false} AsWrittenMatchesTyped(inputs: seq<Option<char>>, key: char)
    requires forall i | 0 <= i < |inputs| :: inputs[i].Some?
    ensures KeysAsRead(inputs, key) == Typed(inputs)
  {
    if inputs != [] {
      AsWrittenMatchesTyped(inputs[1..], inputs[0].value);
    }
  }
}

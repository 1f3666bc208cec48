/** What holds of a log book however its writers race: the theorems about runs, stated
    for traces, and what a verified head says about any other store. */
module LogBook {
  import opened Bytes
  import opened Entities
  import opened Records
  import opened Chain
  import opened Agreement
  import opened Book
  import opened Allocation
  import opened Acceptance
  import opened Reach
  import opened EventOrder
  import opened Vocabulary
  import opened Dictionary
  import opened Interleaving
  import opened Racing
  import Marks
  import History

  /** The chain of every trace verifies, and the verifier checks as many events as the
      head counts, which is fewer than the number that spells the anchor. */
  lemma AlwaysVerifies(env: Env, h: seq<Store>, run: seq<Step>)
    requires Trace(env, h, run)
    ensures Accepts(env, Current(h)) && |Events(env, Current(h))| == HeadCount(env, Current(h))
    ensures HeadCount(env, Current(h)) < env.log * 0x100_0000 + 0xFE00
  {
    TraceIsRun(env, h, run);
    ReachableAccepted(env, run);
    ReachableBounded(env, run);
  }

  /** Lines in key order, each with its endorsements and then perhaps a strike. */
  lemma AlwaysOrderly(env: Env, h: seq<Store>, run: seq<Step>)
    requires Trace(env, h, run)
    ensures Accepts(env, Current(h)) && Orderly(Current(h), Events(env, Current(h)))
  {
    TraceIsRun(env, h, run);
    ReachableOrderly(env, run);
  }

  /** The lines of a page are 1 to the last one handed out, and earlier pages are ruled
      off. */
  lemma AlwaysNumbered(env: Env, h: seq<Store>, run: seq<Step>)
    requires Trace(env, h, run)
    ensures AllocInv(env, Current(h))
  {
    TraceIsRun(env, h, run);
    EmptyInv(env);
    RunKept(env, Empty(), [], run);
  }

  /** One entity to a text, listed where the text says. */
  lemma AlwaysUnique(env: Env, h: seq<Store>, run: seq<Step>)
    requires Trace(env, h, run)
    ensures DictInv(env, Current(h))
  {
    TraceIsRun(env, h, run);
    ReachableDictionary(env, run);
  }

  /** Vocabularies close and open by turns. */
  lemma AlwaysAlternates(env: Env, h: seq<Store>, run: seq<Step>)
    requires Trace(env, h, run)
    ensures Accepts(env, Current(h)) && VocabInv(env, Current(h), Events(env, Current(h)))
  {
    TraceIsRun(env, h, run);
    ReachableAlternates(env, run);
  }

  /** Both directions of every relation agree, and corrections form chains. */
  lemma AlwaysReadable(env: Env, h: seq<Store>, run: seq<Step>)
    requires Trace(env, h, run)
    ensures History.InBook(env, Current(h))
  {
    TraceIsRun(env, h, run);
    Marks.ReachableInBook(env, run);
  }

  /** A log some writers made and any other store that verifies with the same head agree
      on everything the events cover, or two different strings with one hash are known. */
  lemma HeadFixesLog(env: Env, h: seq<Store>, run: seq<Step>, t: Store)
    requires Trace(env, h, run) && Head(env) in Current(h).decl
    requires Accepts(env, t) && Head(env) in t.decl && t.decl[Head(env)].data == Current(h).decl[Head(env)].data
    ensures Accepts(env, Current(h))
    ensures Agree(Current(h), Events(env, Current(h)), t, Events(env, t))
            || exists i :: CollisionAt(env, Current(h), Events(env, Current(h)), t, Events(env, t), i)
  {
    AlwaysVerifies(env, h, run);
    SameHeadAgree(env, Current(h), t);
  }
}

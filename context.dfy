/** The interceptor chain (src/interceptor/context.rs). Interceptors are user
    code: each is modelled as a function of the request and of the way to
    send it on, giving a response or an error already turned into text. The
    request and response types are left abstract. */
module Interceptor {
  import opened Wrappers
  import Errors

  /** A link of the chain as user code sees it: called with the request and
      the context's `send`, it answers with a response or its error text. */
  type Link<!Q, !P> = (Q, Q -> Result<P, Errors.Error>) -> Result<P, string>

  /** `Context`: the invoker that performs a request for real, and the
      interceptors still to run, outermost first. */
  datatype Context<!Q, !P> = Context(invoker: Q -> Result<P, Errors.Error>, interceptors: seq<Link<Q, P>>)
  {
    /** `Context::send`: with an interceptor left, it is called with the
        request and a context holding the same invoker and the rest of the
        list; its response is passed on and its error becomes a curl error
        holding the error's text. With none left, the invoker runs. Each
        nested context has a shorter list, so dispatch terminates. */
    function Send(request: Q): (r: Result<P, Errors.Error>)
      ensures |interceptors| == 0 ==> r == invoker(request)
      ensures |interceptors| > 0 && r.Failure? ==> r.error.Curl?
      decreases |interceptors|
    {
      if |interceptors| == 0 then invoker(request)
      else
        var inner := Context(invoker, interceptors[1..]);
        match interceptors[0](request, (q: Q) => inner.Send(q))
        case Success(response) => Success(response)
        case Failure(text) => Failure(Errors.Curl(text))
    }

    /** The context handed to the first interceptor. */
    function Inner(): (c: Context<Q, P>)
      requires |interceptors| > 0
      ensures c.invoker == invoker && c.interceptors == interceptors[1..]
      ensures |c.interceptors| < |interceptors|
    {
      Context(invoker, interceptors[1..])
    }
  }

  /** Without interceptors the invoker's answer is the answer. */
  lemma SendWithoutInterceptors<Q, P>(ctx: Context<Q, P>, request: Q)
    requires ctx.interceptors == []
    ensures ctx.Send(request) == ctx.invoker(request)
  {
  }

  /** With interceptors, the first one decides, given the request and the
      inner context's `send`: its response is returned unchanged and its
      error comes back as `Curl` of the error text. */
  lemma SendThroughFirst<Q, P>(ctx: Context<Q, P>, request: Q)
    requires |ctx.interceptors| > 0
    ensures var answer := ctx.interceptors[0](request, (q: Q) => ctx.Inner().Send(q));
      && (answer.Success? ==> ctx.Send(request) == Success(answer.value))
      && (answer.Failure? ==> ctx.Send(request) == Failure(Errors.Curl(answer.error)))
  {
  }

  /** A chain of interceptors that each pass a successful response of the
      rest of the chain through unchanged returns the invoker's response. */
  lemma {:induction false} TransparentChain<Q, P>(ctx: Context<Q, P>, request: Q)
    requires forall k: nat, next: Q -> Result<P, Errors.Error> | k < |ctx.interceptors| ::
      next(request).Success? ==> ctx.interceptors[k](request, next) == Success(next(request).value)
    requires ctx.invoker(request).Success?
    ensures ctx.Send(request) == ctx.invoker(request)
    decreases |ctx.interceptors|
  {
    if |ctx.interceptors| > 0 {
      var inner := ctx.Inner();
      assert forall k: nat | k < |inner.interceptors| :: inner.interceptors[k] == ctx.interceptors[k + 1];
      TransparentChain(inner, request);
      var next := (q: Q) => inner.Send(q);
      assert next(request) == ctx.invoker(request);
    }
  }
}

/**
 * The configuration hash in the pod template: what it means that two hashes are equal
 * (reconcileHAConfigs, ComputeHash).
 */
module ChangeDetection {
  import opened Options
  import opened Names
  import opened Spec
  import opened Controller
  import Json
  import Render
  import Secrets

  const WIDTH := 16

  /** ComputeHash cuts its digest to 16 characters. */
  ghost predicate FixedWidth(hash: string -> string) { forall x :: |hash(x)| == WIDTH }

  ghost predicate AllRender(p: Plan, render: Renderer) {
    forall i: nat | i < p.replicas :: render(ServerName(p, i)).Some?
  }

  /** The configurations of the ordinals below `n` that render, in order. */
  function RenderedConfigs(p: Plan, render: Renderer, n: nat): (r: seq<string>)
    ensures |r| <= n
  {
    if n == 0 then []
    else
      var config := render(ServerName(p, n - 1));
      RenderedConfigs(p, render, n - 1) + if config.Some? then [config.value] else []
  }

  function JoinHashes(hash: string -> string, configs: seq<string>): string {
    if configs == [] then "" else JoinHashes(hash, configs[..|configs| - 1]) + hash(configs[|configs| - 1])
  }

  /** The texts this reconcile hashes: every configuration, and the joined hashes. */
  ghost predicate IsHashed(p: Plan, render: Renderer, hash: string -> string, x: string) {
    x == CombinedHash(p, render, hash, p.replicas) || x in RenderedConfigs(p, render, p.replicas)
  }

  /** No two of the texts the two reconciles hash collide; nothing is said about any other text. */
  ghost predicate NoCollision(p: Plan, render: Renderer, p': Plan, render': Renderer, hash: string -> string) {
    forall x, y | IsHashed(p, render, hash, x) && IsHashed(p', render', hash, y) && hash(x) == hash(y) :: x == y
  }

  /** The annotation of the pod template. */
  function TemplateHash(p: Plan, render: Renderer, hash: string -> string): string { HAHash(p, render, hash) }

  lemma {:induction false} JoinedHashes(p: Plan, render: Renderer, hash: string -> string, n: nat)
    ensures CombinedHash(p, render, hash, n) == JoinHashes(hash, RenderedConfigs(p, render, n))
  {
    if n > 0 {
      JoinedHashes(p, render, hash, n - 1);
      var front, config := RenderedConfigs(p, render, n - 1), render(ServerName(p, n - 1));
      if config.Some? {
        assert (front + [config.value])[..|front|] == front;
      } else {
        assert front + [] == front;
      }
    }
  }

  /** Joined hashes of fixed width are blocks, one per configuration. */
  lemma {:induction false} Blocks(hash: string -> string, configs: seq<string>)
    requires FixedWidth(hash)
    ensures |JoinHashes(hash, configs)| == WIDTH * |configs|
    ensures forall i: nat | i < |configs| ::
              JoinHashes(hash, configs)[WIDTH * i..WIDTH * i + WIDTH] == hash(configs[i])
  {
    if configs != [] {
      var n := |configs| - 1;
      Blocks(hash, configs[..n]);
      var front, whole := JoinHashes(hash, configs[..n]), JoinHashes(hash, configs);
      assert whole == front + hash(configs[n]);
      forall i: nat | i < |configs| ensures whole[WIDTH * i..WIDTH * i + WIDTH] == hash(configs[i]) {
        if i < n {
          assert whole[WIDTH * i..WIDTH * i + WIDTH] == front[WIDTH * i..WIDTH * i + WIDTH];
          assert configs[..n][i] == configs[i];
        }
      }
    }
  }

  /**
   * Two template hashes are equal exactly when the same configurations rendered in the same
   * order; an ordinal that does not render leaves no mark.
   */
  lemma EqualHashExactly(p: Plan, render: Renderer, p': Plan, render': Renderer, hash: string -> string)
    requires FixedWidth(hash) && NoCollision(p, render, p', render', hash)
    ensures TemplateHash(p, render, hash) == TemplateHash(p', render', hash)
            <==> RenderedConfigs(p, render, p.replicas) == RenderedConfigs(p', render', p'.replicas)
  {
    var a, b := RenderedConfigs(p, render, p.replicas), RenderedConfigs(p', render', p'.replicas);
    JoinedHashes(p, render, hash, p.replicas);
    JoinedHashes(p', render', hash, p'.replicas);
    Blocks(hash, a);
    Blocks(hash, b);
    if TemplateHash(p, render, hash) == TemplateHash(p', render', hash) {
      assert IsHashed(p, render, hash, CombinedHash(p, render, hash, p.replicas));
      assert JoinHashes(hash, a) == JoinHashes(hash, b);
      forall i: nat | i < |a| ensures a[i] == b[i] {
        assert hash(a[i]) == hash(b[i]);
        assert IsHashed(p, render, hash, a[i]) && IsHashed(p', render', hash, b[i]);
      }
    }
  }

  lemma {:induction false} AllRendered(p: Plan, render: Renderer, n: nat)
    requires n <= p.replicas && AllRender(p, render)
    ensures |RenderedConfigs(p, render, n)| == n
    ensures forall i: nat | i < n :: Some(RenderedConfigs(p, render, n)[i]) == render(ServerName(p, i))
  {
    if n > 0 {
      AllRendered(p, render, n - 1);
    }
  }

  /**
   * If every ordinal renders, equal template hashes mean the same number of replicas and the
   * same configuration at every ordinal, and conversely.
   */
  lemma EqualHashSameConfigs(p: Plan, render: Renderer, p': Plan, render': Renderer, hash: string -> string)
    requires FixedWidth(hash) && AllRender(p, render) && AllRender(p', render')
    requires NoCollision(p, render, p', render', hash)
    ensures TemplateHash(p, render, hash) == TemplateHash(p', render', hash)
            <==> && p.replicas == p'.replicas
                 && forall i: nat | i < p.replicas :: render(ServerName(p, i)) == render'(ServerName(p', i))
  {
    EqualHashExactly(p, render, p', render', hash);
    AllRendered(p, render, p.replicas);
    AllRendered(p', render', p'.replicas);
    var a, b := RenderedConfigs(p, render, p.replicas), RenderedConfigs(p', render', p'.replicas);
    if a == b {
      forall i: nat | i < p.replicas ensures render(ServerName(p, i)) == render'(ServerName(p', i)) {
        assert Some(a[i]) == Some(b[i]);
      }
    }
    if p.replicas == p'.replicas && forall i: nat | i < p.replicas :: render(ServerName(p, i)) == render'(ServerName(p', i)) {
      forall i: nat | i < |a| ensures a[i] == b[i] {
        assert Some(a[i]) == Some(b[i]);
      }
    }
  }

  // ---------- what the configurations say ----------

  /** `marshal` stands for the JSON serializer. */
  function Rendering(marshal: Json.Json -> string, spec: Dhcp4Spec, creds: Secrets.Credentials): Renderer {
    name => Some(marshal(Render.RootTree(spec, creds, name)))
  }

  ghost predicate Injective(marshal: Json.Json -> string) { forall a, b :: marshal(a) == marshal(b) ==> a == b }

  /**
   * With an injective serializer and no imitated hooks, equal template hashes mean that Kea sees
   * the same settings at every ordinal: every visible change of the resource changes the template.
   */
  lemma EqualHashSameMeaning(p: Plan, spec: Dhcp4Spec, creds: Secrets.Credentials,
                             p': Plan, spec': Dhcp4Spec, creds': Secrets.Credentials,
                             marshal: Json.Json -> string, hash: string -> string)
    requires FixedWidth(hash) && Injective(marshal) && Render.Unambiguous(spec) && Render.Unambiguous(spec')
    requires NoCollision(p, Rendering(marshal, spec, creds), p', Rendering(marshal, spec', creds'), hash)
    requires TemplateHash(p, Rendering(marshal, spec, creds), hash) == TemplateHash(p', Rendering(marshal, spec', creds'), hash)
    ensures p.replicas == p'.replicas
    ensures forall i: nat | i < p.replicas ::
              Render.Norm(spec, creds, ServerName(p, i)) == Render.Norm(spec', creds', ServerName(p', i))
  {
    var render, render' := Rendering(marshal, spec, creds), Rendering(marshal, spec', creds');
    EqualHashSameConfigs(p, render, p', render', hash);
    forall i: nat | i < p.replicas
      ensures Render.Norm(spec, creds, ServerName(p, i)) == Render.Norm(spec', creds', ServerName(p', i))
    {
      var a, b := ServerName(p, i), ServerName(p', i);
      assert render(a) == render'(b);
      Render.RenderInjective(spec, creds, a, spec', creds', b);
    }
  }
}

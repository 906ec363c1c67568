/** The post-renderer at work: documents changed in place, and the pass over a release's manifests. */
module PostRenderPass {
  import opened Json
  import opened Numerals
  import opened Options
  import opened PostRender

  class Document {
    var doc: Value

    constructor (doc: Value)
      ensures this.doc == doc
    {
      this.doc := doc;
    }

    method Reroute(s: Stopped) returns (r: Outcome<bool>)
      requires doc.Dict?
      modifies this
      ensures var after := RerouteIngress(old(doc), s);
        if after.Raised? then r.Raised? else r == Done(after.value.1) && doc == after.value.0
    {
      if !HasHostname(s) {
        return Done(false);
      }
      var found := RulesOf(doc);
      if found.Raised? {
        return Raised;
      }
      if !found.value.List? {
        return Done(false);
      }
      var rules := found.value.items;
      var changed := false;
      for i := 0 to |rules|
        invariant unchanged(this) && |rules| == |found.value.items|
        invariant rules[i..] == found.value.items[i..]
        invariant RerouteRules(found.value.items[..i], s) == Done((rules[..i], changed))
      {
        assert found.value.items[..i + 1][..i] == found.value.items[..i];
        assert rules[i] == found.value.items[i];
        var rule := RerouteEach(rules[i], s);
        if rule.Raised? {
          RaisedStays(found.value.items, i + 1, s);
          return Raised;
        }
        changed := changed || rule.value.1;
        ghost var before := rules[..i];
        rules := rules[i := rule.value.0];
        assert rules[..i + 1] == before + [rule.value.0];
      }
      assert found.value.items[..|rules|] == found.value.items && rules[..|rules|] == rules;
      if changed {
        doc := Put(doc, "spec", Put(Get(doc, "spec"), "rules", List(rules)));
      }
      return Done(changed);
    }

    /** None drops the document. */
    method Stop(s: Stopped) returns (r: Outcome<Option<bool>>)
      modifies this
      ensures r.Raised? <==> PostRender.Stop(old(doc), s).Raised?
      ensures r.Done? && r.value.None? ==> PostRender.Stop(old(doc), s) == Done(Drop)
      ensures r.Done? && r.value.Some? ==> PostRender.Stop(old(doc), s) == Done(Keep(doc, r.value.value))
    {
      var kind := Kind(doc);
      if kind == "Deployment" || kind == "StatefulSet" || kind == "Job" || kind == "CronJob" {
        var still := if kind == "Deployment" || kind == "StatefulSet" then SetInSpec(doc, "replicas", Number(0))
                     else SetInSpec(doc, "suspend", Bool(true));
        if still.Raised? {
          return Raised;
        }
        doc := still.value;
        return Done(Some(true));
      }
      if kind == "HorizontalPodAutoscaler" || kind == "Pod" {
        return Done(None);
      }
      if kind == "Ingress" {
        var changed := Reroute(s);
        return if changed.Raised? then Raised else Done(Some(changed.value));
      }
      return Done(Some(false));
    }

    method Rewrite(gate: Value, annotations: map<string, string>) returns (r: Outcome<bool>)
      modifies this
      ensures var after := PostRender.Rewrite(old(doc), gate, annotations);
        if after.Raised? then r.Raised? else r == Done(after.value.1) && doc == after.value.0
    {
      var at := PodTemplate(doc);
      if at.Raised? {
        return Raised;
      }
      if at.value.None? {
        return Done(false);
      }
      var t := RewriteTemplate(TemplateAt(doc, at.value.value), gate, annotations);
      if t.Raised? {
        return Raised;
      }
      doc := PutTemplate(doc, at.value.value, t.value);
      return Done(true);
    }
  }

  method RerouteEach(rule: Value, s: Stopped) returns (r: Outcome<(Value, bool)>)
    requires HasHostname(s)
    ensures r == RerouteRule(rule, s)
  {
    if !ForHost(rule, s) {
      return Done((rule, false));
    }
    var found := Paths(rule);
    if found.Raised? {
      return Raised;
    }
    var paths := found.value;
    if paths == [] {
      return Done((rule, false));
    }
    for i := 0 to |paths|
      invariant |paths| == |found.value|
      invariant forall k | 0 <= k < i :: paths[k] == Put(found.value[k], "backend", Backend(s))
      invariant forall k | i <= k < |paths| :: paths[k] == found.value[k]
    {
      paths := paths[i := Put(paths[i], "backend", Backend(s))];
    }
    assert paths == Rerouted(found.value, s);
    return Done((Put(rule, "http", Put(Get(rule, "http"), "paths", List(paths))), true));
  }

  lemma {:induction false} RaisedStays(rules: seq<Value>, i: nat, s: Stopped)
    requires HasHostname(s) && i <= |rules| && RerouteRules(rules[..i], s).Raised?
    ensures RerouteRules(rules, s).Raised?
    decreases |rules| - i
  {
    if i == |rules| {
      assert rules[..i] == rules;
    } else {
      assert rules[..i + 1][..i] == rules[..i];
      RaisedStays(rules, i + 1, s);
    }
  }

  // ---------- A release's manifests ----------

  /** A manifest's text, and the document parsed from it. */
  datatype Chunk = Chunk(text: string, doc: Value)

  /** A manifest goes out as its own text, or, under its leading comments, as a document written afresh. */
  datatype Out = Verbatim(text: string) | Written(text: string, doc: Value) | Parking(service: Value)

  /** None is a chunk that does not go out. */
  function RenderChunk(
    c: Chunk, gate: Value, annotations: map<string, string>, stopped: Option<Stopped>): Outcome<Option<Out>> {
    if Trim(c.text) == "" then Done(None)
    else
      var f := if stopped.Some? then RewriteThenStop(c.doc, gate, annotations, stopped.value)
               else
                 var r := Rewrite(c.doc, gate, annotations);
                 if r.Raised? then Raised else Done(Keep(r.value.0, r.value.1));
      if f.Raised? then Raised
      else if f.value.Drop? then Done(None)
      else Done(Some(if f.value.changed then Written(c.text, f.value.doc) else Verbatim(c.text)))
  }

  function RenderChunks(
    cs: seq<Chunk>, gate: Value, annotations: map<string, string>, stopped: Option<Stopped>): Outcome<seq<Out>> {
    if cs == [] then Done([])
    else
      var before := RenderChunks(cs[..|cs| - 1], gate, annotations, stopped);
      var last := RenderChunk(cs[|cs| - 1], gate, annotations, stopped);
      if before.Raised? || last.Raised? then Raised
      else if last.value.None? then before
      else Done(before.value + [last.value.value])
  }

  /** A stopped release gets its parking service, if there is a hostname to lead there. */
  function RenderAll(
    cs: seq<Chunk>, gate: Value, annotations: map<string, string>, stopped: Option<Stopped>): Outcome<seq<Out>> {
    var chunks := RenderChunks(cs, gate, annotations, stopped);
    if chunks.Done? && stopped.Some? && HasHostname(stopped.value) then
      Done(chunks.value + [Parking(ParkingService(stopped.value))])
    else chunks
  }

  method RenderOne(c: Chunk, gate: Value, annotations: map<string, string>, stopped: Option<Stopped>)
    returns (r: Outcome<Option<Out>>)
    ensures r == RenderChunk(c, gate, annotations, stopped)
  {
    hide Rewrite, PostRender.Stop;
    if Trim(c.text) == "" {
      return Done(None);
    }
    var document := new Document(c.doc);
    var changed := document.Rewrite(gate, annotations);
    if changed.Raised? {
      return Raised;
    }
    var dirty := changed.value;
    if stopped.Some? {
      var stopChanged := document.Stop(stopped.value);
      if stopChanged.Raised? {
        return Raised;
      }
      if stopChanged.value.None? {
        return Done(None);
      }
      dirty := dirty || stopChanged.value.value;
    }
    return Done(Some(if dirty then Written(c.text, document.doc) else Verbatim(c.text)));
  }

  method Render(cs: seq<Chunk>, gate: Value, annotations: map<string, string>, stopped: Option<Stopped>)
    returns (r: Outcome<seq<Out>>)
    ensures r == RenderAll(cs, gate, annotations, stopped)
  {
    hide RenderChunk;
    var out := [];
    for i := 0 to |cs|
      invariant RenderChunks(cs[..i], gate, annotations, stopped) == Done(out)
    {
      assert cs[..i + 1][..i] == cs[..i];
      var one := RenderOne(cs[i], gate, annotations, stopped);
      if one.Raised? {
        RaisedOnward(cs, i + 1, gate, annotations, stopped);
        return Raised;
      }
      if one.value.None? {
        continue;
      }
      out := out + [one.value.value];
    }
    assert cs[..|cs|] == cs;
    if stopped.Some? && HasHostname(stopped.value) {
      out := out + [Parking(ParkingService(stopped.value))];
    }
    return Done(out);
  }

  lemma {:induction false} RaisedOnward(
    cs: seq<Chunk>, i: nat, gate: Value, annotations: map<string, string>, stopped: Option<Stopped>)
    requires i <= |cs| && RenderChunks(cs[..i], gate, annotations, stopped).Raised?
    ensures RenderChunks(cs, gate, annotations, stopped).Raised?
    decreases |cs| - i
  {
    hide RenderChunk;
    if i == |cs| {
      assert cs[..i] == cs;
    } else {
      assert cs[..i + 1][..i] == cs[..i];
      RaisedOnward(cs, i + 1, gate, annotations, stopped);
    }
  }

  // ---------- What goes out ----------

  /** Places in order. */
  ghost predicate Rising(at: seq<nat>, below: nat) {
    && (forall k | 0 <= k < |at| :: at[k] < below)
    && forall k, l | 0 <= k < l < |at| :: at[k] < at[l]
  }

  /** A chunk that rightly does not go out. */
  predicate Gone(c: Chunk, stopped: Option<Stopped>) {
    Trim(c.text) == "" || (stopped.Some? && Kind(c.doc) in {"Pod", "HorizontalPodAutoscaler"})
  }

  /** What goes out of a chunk: its own text if unchanged, and, of a stopped release, no known workload but in lists. */
  ghost predicate GoesOut(c: Chunk, o: Out, gate: Value, annotations: map<string, string>, stopped: Option<Stopped>) {
    && RenderChunk(c, gate, annotations, stopped) == Done(Some(o)) && !o.Parking? && o.text == c.text
    && var d := if o.Written? then o.doc else c.doc;
       Kind(d) == Kind(c.doc) && (stopped.Some? && StartsPods(d) ==> Kind(d) in UNKNOWN || ListStartsPods(d))
  }

  lemma ChunkGoesOut(c: Chunk, gate: Value, annotations: map<string, string>, stopped: Option<Stopped>)
    requires IsGate(gate) && RenderChunk(c, gate, annotations, stopped).Done?
    ensures var o := RenderChunk(c, gate, annotations, stopped).value;
      if o.None? then Gone(c, stopped)
      else !Gone(c, stopped) && GoesOut(c, o.value, gate, annotations, stopped)
  {
    hide Rewrite, StartsPods, ListStartsPods;
    if Trim(c.text) != "" {
      RewriteKeepsKind(c.doc, gate, annotations);
      RewriteTwice(c.doc, gate, annotations);
      if stopped.Some? {
        var d := Rewrite(c.doc, gate, annotations).value.0;
        if PostRender.Stop(d, stopped.value).value.Keep? {
          StoppedStartsNothingKnown(d, stopped.value);
          UnchangedIsSame(d, stopped.value);
        }
      }
    }
  }

  lemma UnchangedIsSame(doc: Value, s: Stopped)
    requires PostRender.Stop(doc, s).Done? && PostRender.Stop(doc, s).value.Keep?
    ensures !PostRender.Stop(doc, s).value.changed ==> PostRender.Stop(doc, s).value.doc == doc
  {
  }

  ghost predicate ChunkRaises(c: Chunk, gate: Value, annotations: map<string, string>, stopped: Option<Stopped>) {
    && (exists k | 0 <= k < |c.text| :: !IsBlank(c.text[k]))
    && var r := Rewrite(c.doc, gate, annotations);
       r.Raised? || (stopped.Some? && PostRender.Stop(r.value.0, stopped.value).Raised?)
  }

  lemma RaisesExactly(c: Chunk, gate: Value, annotations: map<string, string>, stopped: Option<Stopped>)
    ensures RenderChunk(c, gate, annotations, stopped).Raised? <==> ChunkRaises(c, gate, annotations, stopped)
  {
    hide Rewrite, PostRender.Stop;
    var i, j := TrimExactly(c.text);
    if i < j { assert !IsBlank(c.text[i]); }
  }

  /** One chunk that raises fails the render, and nothing else does. */
  lemma {:induction false} RenderRaisesExactly(
    cs: seq<Chunk>, gate: Value, annotations: map<string, string>, stopped: Option<Stopped>)
    ensures RenderAll(cs, gate, annotations, stopped).Raised? <==>
      exists i | 0 <= i < |cs| :: ChunkRaises(cs[i], gate, annotations, stopped)
  {
    hide RenderChunk, ChunkRaises;
    if cs != [] {
      var n := |cs| - 1;
      RenderRaisesExactly(cs[..n], gate, annotations, stopped);
      RaisesExactly(cs[n], gate, annotations, stopped);
      assert forall i | 0 <= i < n :: cs[..n][i] == cs[i];
    }
  }

  /** A chunk goes out as its own text exactly when it has no pod template and stopping leaves it alone. */
  lemma OwnTextExactly(c: Chunk, o: Out, gate: Value, annotations: map<string, string>, stopped: Option<Stopped>)
    requires RenderChunk(c, gate, annotations, stopped) == Done(Some(o))
    ensures o == Verbatim(c.text) <==>
              PodTemplate(c.doc) == Done(None)
              && (stopped.Some? ==> PostRender.Stop(c.doc, stopped.value) == Done(Keep(c.doc, false)))
  {
    hide PodTemplate, RewriteTemplate, TemplateAt, PutTemplate, PostRender.Stop;
    if stopped.Some? && PodTemplate(c.doc) == Done(None) && o == Verbatim(c.text) {
      UnchangedIsSame(c.doc, stopped.value);
    }
  }

  /**
   The chunks go out in their order, each once, all but the blank ones and, of a stopped release, its bare Pods and
   autoscalers; `at` says which they are.
   */
  lemma {:induction false} EachGoesOutOnce(
    cs: seq<Chunk>, gate: Value, annotations: map<string, string>, stopped: Option<Stopped>) returns (at: seq<nat>)
    requires IsGate(gate) && RenderChunks(cs, gate, annotations, stopped).Done?
    ensures var out := RenderChunks(cs, gate, annotations, stopped).value;
      && |at| == |out| && Rising(at, |cs|)
      && (forall k | 0 <= k < |out| :: GoesOut(cs[at[k]], out[k], gate, annotations, stopped))
      && forall i: nat | i < |cs| :: i in at <==> !Gone(cs[i], stopped)
  {
    hide RenderChunk, Gone, GoesOut;
    if cs == [] {
      at := [];
    } else {
      var n := |cs| - 1;
      at := EachGoesOutOnce(cs[..n], gate, annotations, stopped);
      ChunkGoesOut(cs[n], gate, annotations, stopped);
      if RenderChunk(cs[n], gate, annotations, stopped).value.Some? {
        at := at + [n];
      }
    }
  }

  /** The service a backend names is this one, on a port it has. */
  predicate ServedBy(backend: Value, service: Value) {
    && service.Dict? && Get(service, "metadata").Dict? && Get(service, "spec").Dict?
    && backend.Dict? && Get(backend, "service").Dict? && Get(Get(backend, "service"), "port").Dict?
    && Get(Get(backend, "service"), "name") == Get(Get(service, "metadata"), "name")
    && Get(Get(service, "spec"), "ports").List?
    && exists i | 0 <= i < |Get(Get(service, "spec"), "ports").items| ::
         var port := Get(Get(service, "spec"), "ports").items[i];
         && port.Dict? && Get(port, "protocol") == Text("TCP")
         && Get(port, "port") == Get(Get(Get(backend, "service"), "port"), "number")
  }

  /** The service is the release's own, and answers for the parking page's host. */
  predicate LeadsToPage(service: Value, s: Stopped) {
    && service.Dict? && Kind(service) == "Service" && Get(service, "apiVersion") == Text("v1")
    && Get(service, "spec").Dict?
    && Get(Get(service, "spec"), "type") == Text("ExternalName")
    && Get(Get(service, "spec"), "externalName") == Text(s.parkingHost)
    && Get(service, "metadata").Dict? && Get(Get(service, "metadata"), "name") == Text(s.release + "-caelus-parking")
  }

  lemma BackendIsServed(s: Stopped)
    ensures ServedBy(Backend(s), ParkingService(s)) && LeadsToPage(ParkingService(s), s)
  {
    var ports := Get(Get(ParkingService(s), "spec"), "ports").items;
    assert Get(ports[0], "port") == Number(s.parkingPort);
  }

  /** The parking service goes out once, last, when a stopped release has a hostname; rerouted paths lead to it. */
  lemma ParkingGoesOutOnce(cs: seq<Chunk>, gate: Value, annotations: map<string, string>, stopped: Option<Stopped>)
    requires IsGate(gate) && RenderAll(cs, gate, annotations, stopped).Done?
    ensures var out := RenderAll(cs, gate, annotations, stopped).value;
      && (stopped.Some? && stopped.value.hostname.Some? && stopped.value.hostname.value != "" ==>
           && out != [] && out[|out| - 1].Parking? && ServedBy(Backend(stopped.value), out[|out| - 1].service)
           && LeadsToPage(out[|out| - 1].service, stopped.value))
      && forall k | 0 <= k < |out| && out[k].Parking? ::
           k == |out| - 1 && stopped.Some? && stopped.value.hostname.Some? && stopped.value.hostname.value != ""
  {
    hide RenderChunk, Backend, ParkingService, ServedBy, LeadsToPage;
    var at := EachGoesOutOnce(cs, gate, annotations, stopped);
    if stopped.Some? { BackendIsServed(stopped.value); }
  }
}

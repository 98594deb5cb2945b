/**
  Pod-template annotations. Every applied workload stamps one annotation,
  `cloudsql.cloud.google.com/<name>`, whose value is its generation, followed by
  `-deleted-<timestamp>` when the workload is being deleted. A change of generation
  changes the template and so makes Kubernetes roll the workload's Pods.
 */
module Annotations {
  import opened Optional
  import opened Text
  import opened Api

  const KeyPrefix := "cloudsql.cloud.google.com/"
  const DeletedMarker := "-deleted-"

  function AnnotationKey(w: AuthProxyWorkload): string {
    KeyPrefix + w.name
  }

  function AnnotationValue(w: AuthProxyWorkload): string {
    match w.deletionTimestamp
    case None => Decimal(w.generation)
    case Some(ts) => Decimal(w.generation) + DeletedMarker + ts
  }

  /** The annotation a workload stamps on the Pod template. */
  function PodAnnotation(w: AuthProxyWorkload): (string, string) {
    (AnnotationKey(w), AnnotationValue(w))
  }

  /** What an annotation records: the workload name, its generation and its deletion stamp. */
  datatype Stamp = Stamp(name: string, generation: int, deletionTimestamp: Option<string>)

  function ParseKey(k: string): Option<string> {
    if HasPrefix(k, KeyPrefix) then Some(k[|KeyPrefix|..]) else None
  }

  /**
    Reads a value back: the number runs up to the first `-` after its sign; whatever
    follows must be the deletion marker and the timestamp.
   */
  function ParseValue(v: string): Option<(int, Option<string>)> {
    if |v| == 0 then None
    else
      match IndexOf(v[1..], '-')
      case None =>
        (match ParseDecimal(v) case None => None case Some(g) => Some((g, None)))
      case Some(i) =>
        var rest := v[i + 1..];
        if HasPrefix(rest, DeletedMarker) then
          match ParseDecimal(v[..i + 1])
          case None => None
          case Some(g) => Some((g, Some(rest[|DeletedMarker|..])))
        else None
  }

  function ParseAnnotation(k: string, v: string): Option<Stamp> {
    match ParseKey(k)
    case None => None
    case Some(name) =>
      match ParseValue(v)
      case None => None
      case Some((g, ts)) => Some(Stamp(name, g, ts))
  }

  /** After its sign, a decimal rendering has no `-`. */
  lemma DecimalTailHasNoDash(n: int)
    ensures '-' !in Decimal(n)[1..]
  {
    var d := Decimal(n);
    assert forall i :: 0 <= i < |d[1..]| ==> d[1..][i] == d[i + 1];
  }

  lemma ParseKeyRoundTrip(w: AuthProxyWorkload)
    ensures ParseKey(AnnotationKey(w)) == Some(w.name)
  {
    var k := AnnotationKey(w);
    assert k[..|KeyPrefix|] == KeyPrefix;
    assert k[|KeyPrefix|..] == w.name;
  }

  /** A plain generation reads back with no deletion stamp. */
  lemma ParseValuePlain(d: string, g: int)
    requires |d| >= 1 && '-' !in d[1..] && ParseDecimal(d) == Some(g)
    ensures ParseValue(d) == Some((g, None))
  {
    assert IndexOf(d[1..], '-').None?;
  }

  /** How `d + m + ts` splits when `m` starts with the first `-` after `d`'s sign. */
  lemma SplitAtMarker(d: string, m: string, ts: string)
    requires |d| >= 1 && '-' !in d[1..] && |m| >= 1 && m[0] == '-'
    ensures IndexOf((d + m + ts)[1..], '-') == Some(|d| - 1)
    ensures (d + m + ts)[..|d|] == d
    ensures (d + m + ts)[|d|..] == m + ts
    ensures (m + ts)[..|m|] == m && (m + ts)[|m|..] == ts
  {
    var v := d + m + ts;
    assert v[1..] == d[1..] + ['-'] + (m[1..] + ts);
    IndexOfAfterFree(d[1..], '-', m[1..] + ts);
  }

  /** A generation followed by the deletion marker reads back with its timestamp. */
  lemma ParseValueMarked(d: string, g: int, ts: string)
    requires |d| >= 1 && '-' !in d[1..] && ParseDecimal(d) == Some(g)
    ensures ParseValue(d + DeletedMarker + ts) == Some((g, Some(ts)))
  {
    assert DeletedMarker[0] == '-';
    SplitAtMarker(d, DeletedMarker, ts);
  }

  lemma ParseValueRoundTrip(w: AuthProxyWorkload)
    ensures ParseValue(AnnotationValue(w)) == Some((w.generation, w.deletionTimestamp))
  {
    var d := Decimal(w.generation);
    DecimalTailHasNoDash(w.generation);
    DecimalRoundTrip(w.generation);
    match w.deletionTimestamp {
      case None =>
        ParseValuePlain(d, w.generation);
      case Some(ts) =>
        ParseValueMarked(d, w.generation, ts);
    }
  }

  /** Reading a stamped annotation back recovers the workload's name, generation and deletion stamp. */
  lemma PodAnnotationRoundTrip(w: AuthProxyWorkload)
    ensures ParseAnnotation(PodAnnotation(w).0, PodAnnotation(w).1)
         == Some(Stamp(w.name, w.generation, w.deletionTimestamp))
  {
    ParseKeyRoundTrip(w);
    ParseValueRoundTrip(w);
  }

  /** Two workloads share an annotation key exactly when they share a name. */
  lemma AnnotationKeyIff(a: AuthProxyWorkload, b: AuthProxyWorkload)
    ensures AnnotationKey(a) == AnnotationKey(b) <==> a.name == b.name
  {
    if AnnotationKey(a) == AnnotationKey(b) {
      ParseKeyRoundTrip(a);
      ParseKeyRoundTrip(b);
    }
  }

  /** The keys the workloads stamp. */
  function Keys(ws: seq<AuthProxyWorkload>): set<string> {
    set i | 0 <= i < |ws| :: AnnotationKey(ws[i])
  }

  /**
    The annotations after stamping every workload, in order: the stamped keys are added,
    every other annotation keeps its value.
   */
  function StampAll(ann: map<string, string>, ws: seq<AuthProxyWorkload>): (r: map<string, string>)
    ensures r.Keys == ann.Keys + Keys(ws)
    ensures forall k :: k in ann && k !in Keys(ws) ==> r[k] == ann[k]
  {
    if |ws| == 0 then ann
    else
      var n := |ws| - 1;
      assert Keys(ws) == Keys(ws[..n]) + {AnnotationKey(ws[n])} by {
        assert forall i :: 0 <= i < n ==> ws[..n][i] == ws[i];
      }
      StampAll(ann, ws[..n])[AnnotationKey(ws[n]) := AnnotationValue(ws[n])]
  }

  /** Stamping one more workload leaves the other keys as they were. */
  lemma StampAllLast(ann: map<string, string>, ws: seq<AuthProxyWorkload>)
    requires |ws| > 0
    ensures StampAll(ann, ws) == StampAll(ann, ws[..|ws| - 1])[AnnotationKey(ws[|ws| - 1]) := AnnotationValue(ws[|ws| - 1])]
  {
  }

  /** Stamping one more workload under another key leaves a stamped key's value as it was. */
  lemma StampAllOther(ann: map<string, string>, ws: seq<AuthProxyWorkload>, k: string)
    requires |ws| > 0 && k in StampAll(ann, ws[..|ws| - 1]) && k != AnnotationKey(ws[|ws| - 1])
    ensures k in StampAll(ann, ws) && StampAll(ann, ws)[k] == StampAll(ann, ws[..|ws| - 1])[k]
  {
    StampAllLast(ann, ws);
  }

  /** With distinct names, every workload's key holds exactly its own value. */
  lemma {:induction false} StampAllValue(ann: map<string, string>, ws: seq<AuthProxyWorkload>, i: nat)
    requires i < |ws|
    requires forall a, b :: 0 <= a < b < |ws| ==> ws[a].name != ws[b].name
    ensures AnnotationKey(ws[i]) in StampAll(ann, ws)
    ensures StampAll(ann, ws)[AnnotationKey(ws[i])] == AnnotationValue(ws[i])
  {
    var n := |ws| - 1;
    if i < n {
      AnnotationKeyIff(ws[i], ws[n]);
      assert ws[..n][i] == ws[i];
      StampAllValue(ann, ws[..n], i);
      StampAllOther(ann, ws, AnnotationKey(ws[i]));
    } else {
      StampAllLast(ann, ws);
    }
  }

  /** Stamping overlays the workloads' own annotations on the existing ones. */
  lemma {:induction false} StampAllOverlay(ann: map<string, string>, ws: seq<AuthProxyWorkload>)
    ensures StampAll(ann, ws) == ann + StampAll(map[], ws)
  {
    if |ws| > 0 {
      var n := |ws| - 1;
      StampAllOverlay(ann, ws[..n]);
      StampAllLast(ann, ws);
      StampAllLast(map[], ws);
      OverlayUpdate(ann, StampAll(map[], ws[..n]), AnnotationKey(ws[n]), AnnotationValue(ws[n]));
    }
  }

  /** Setting a key on top of an overlay is the same as setting it in the overlaid map. */
  lemma OverlayUpdate(a: map<string, string>, b: map<string, string>, k: string, v: string)
    ensures (a + b)[k := v] == a + b[k := v]
  {
  }

  /** Stamping the same workloads twice gives what stamping them once gives. */
  lemma StampAllIdempotent(ann: map<string, string>, ws: seq<AuthProxyWorkload>)
    ensures StampAll(StampAll(ann, ws), ws) == StampAll(ann, ws)
  {
    StampAllOverlay(ann, ws);
    StampAllOverlay(StampAll(ann, ws), ws);
  }
}

/**
 * The shuffle styles a video picks from: each names the movement the
 * shuffle frame draws, and a lookup finds a style by its id.
 */
module ShuffleStyles {
  import opened Wrappers
  import Timeline

  datatype ShuffleStyle = ShuffleStyle(
    id: string,
    name: string,
    duration: real,
    ease: string,
    cardMovement: string)

  const Styles: seq<ShuffleStyle> := [
    ShuffleStyle("chaos_orbit", "혼돈 궤도", 7.0, "linear", "chaos_orbit"),
    ShuffleStyle("scatter_swirl", "흩어짐 소용돌이", 7.0, "linear", "scatter_swirl"),
    ShuffleStyle("bounce_mix", "튀어오름 섞기", 7.0, "linear", "bounce_mix"),
    ShuffleStyle("spiral_chaos", "나선 혼돈", 7.0, "linear", "spiral_chaos")]

  /** Position i holds the first style of the list with that id. */
  predicate FirstMatch(styles: seq<ShuffleStyle>, i: int, shuffleId: string) {
    0 <= i < |styles| && styles[i].id == shuffleId &&
    forall j :: 0 <= j < i ==> styles[j].id != shuffleId
  }

  /** The first style of the list whose id matches, or None. */
  function FindById(styles: seq<ShuffleStyle>, shuffleId: string): (r: Option<ShuffleStyle>)
    ensures r.None? <==> forall i :: 0 <= i < |styles| ==> styles[i].id != shuffleId
    ensures r.Some? ==> exists i :: FirstMatch(styles, i, shuffleId) && styles[i] == r.value
  {
    if styles == [] then None
    else if styles[0].id == shuffleId then
      assert FirstMatch(styles, 0, shuffleId);
      Some(styles[0])
    else
      var rest := FindById(styles[1..], shuffleId);
      assert rest.Some? ==> exists i :: FirstMatch(styles, i, shuffleId) && styles[i] == rest.value by {
        if rest.Some? {
          var i :| FirstMatch(styles[1..], i, shuffleId) && styles[1..][i] == rest.value;
          forall j | 0 <= j < i + 1 ensures styles[j].id != shuffleId {
            if j > 0 { assert styles[j] == styles[1..][j - 1]; }
          }
          assert FirstMatch(styles, i + 1, shuffleId);
        }
      }
      assert rest.None? <==> forall i :: 0 <= i < |styles| ==> styles[i].id != shuffleId by {
        if rest.None? {
          forall i | 0 <= i < |styles| ensures styles[i].id != shuffleId {
            if i > 0 { assert styles[i] == styles[1..][i - 1]; }
          }
        }
      }
      rest
  }

  /** get_shuffle_by_id: the linear search over the configured styles. */
  function GetShuffleById(shuffleId: string): Option<ShuffleStyle> {
    FindById(Styles, shuffleId)
  }

  /** Every style's id is its own; ids are distinct, and the movement is the id. */
  lemma StylesWellFormed()
    ensures forall i, j :: 0 <= i < j < |Styles| ==> Styles[i].id != Styles[j].id
    ensures forall i :: 0 <= i < |Styles| ==> Styles[i].cardMovement == Styles[i].id
  {
  }

  /** Looking a style up by its own id finds that style; any other id finds nothing. */
  lemma LookupById(shuffleId: string)
    ensures GetShuffleById(shuffleId).Some? <==>
      shuffleId in {"chaos_orbit", "scatter_swirl", "bounce_mix", "spiral_chaos"}
    ensures forall i :: 0 <= i < |Styles| ==> GetShuffleById(Styles[i].id) == Some(Styles[i])
  {
    StylesWellFormed();
    forall i | 0 <= i < |Styles| ensures GetShuffleById(Styles[i].id) == Some(Styles[i]) {
      var r := GetShuffleById(Styles[i].id);
      assert Styles[i].id == Styles[i].id;
      var k :| FirstMatch(Styles, k, Styles[i].id) && Styles[k] == r.value;
      assert k == i;
    }
  }

  /** random.choice over the styles: whatever is chosen is one of them. */
  method PickRandomShuffle() returns (s: ShuffleStyle)
    ensures s in Styles
  {
    assert Styles[0] in Styles;
    s :| s in Styles;
  }

  /** The four styles select four different branches of the shuffle frame. */
  lemma StylesSelectDistinctBranches()
    ensures forall i, j :: 0 <= i < j < |Styles| ==>
      Timeline.BranchOf(Styles[i].cardMovement) != Timeline.BranchOf(Styles[j].cardMovement)
  {
    assert Timeline.BranchOf(Styles[3].cardMovement) == Timeline.Spiral;
  }
}

/** The explicit (FTCS) update of a single node from its four neighbours. */
module Update {

  /**
   * The values the update of node (i, j) uses: the nodes below (i+1),
   * above (i-1), to the right (j+1) and to the left (j-1), and the node itself.
   */
  datatype Stencil = Stencil(south: real, north: real, east: real, west: real, centre: real)

  /**
   * Convective (Robin) substitute for a neighbour beyond a face that exchanges
   * heat with an ambient at temperature `ambient`: the node's own value moved
   * toward the ambient by the fraction teta.
   */
  function Robin(teta: real, u: real, ambient: real): (r: real)
    ensures r - u == teta * (ambient - u)
    ensures ambient == u ==> r == u
  {
    (1.0 - teta) * u + teta * ambient
  }

  /**
   * The new value of a node: its old value plus gamma times the sum of the
   * differences between each neighbour and the node.
   */
  function Relax(gamma: real, st: Stencil): (r: real)
    ensures r - st.centre == gamma * ((st.south - st.centre) + (st.north - st.centre)
                                      + (st.east - st.centre) + (st.west - st.centre))
    ensures st.south == st.north == st.east == st.west == st.centre ==> r == st.centre
  {
    gamma * (st.south + st.north + st.east + st.west - 4.0 * st.centre) + st.centre
  }
}

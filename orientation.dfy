/** The two connector-side enumerations and the switches between them
    (GetOrientationFromConnector / GetOrientationForConnector). */
module Orientations {

  /** The side of a designer item a live connector sits on. */
  datatype ConnectorOrientation = Left | Right | None

  /** The side as it is written into a persisted connection record. */
  datatype Orientation = Left | Right | None

  /** Encoding for the store: Left and Right keep their side, anything else is None. */
  function FromConnector(c: ConnectorOrientation): (o: Orientation)
    ensures c == ConnectorOrientation.Left <==> o == Orientation.Left
    ensures c == ConnectorOrientation.Right <==> o == Orientation.Right
    ensures c == ConnectorOrientation.None <==> o == Orientation.None
  {
    match c
    case Left => Orientation.Left
    case Right => Orientation.Right
    case _ => Orientation.None
  }

  /** Decoding from the store: the mirror of FromConnector. */
  function ForConnector(o: Orientation): (c: ConnectorOrientation)
    ensures o == Orientation.Left <==> c == ConnectorOrientation.Left
    ensures o == Orientation.Right <==> c == ConnectorOrientation.Right
    ensures o == Orientation.None <==> c == ConnectorOrientation.None
  {
    match o
    case Left => ConnectorOrientation.Left
    case Right => ConnectorOrientation.Right
    case _ => ConnectorOrientation.None
  }

  /** A side that can be attached to a node. */
  predicate IsSide(c: ConnectorOrientation) {
    c == ConnectorOrientation.Left || c == ConnectorOrientation.Right
  }

  /** Decoding undoes encoding on every in-memory value, and encoding undoes
      decoding on every persisted value: the two switches are inverse bijections. */
  lemma RoundTrip(c: ConnectorOrientation, o: Orientation)
    ensures ForConnector(FromConnector(c)) == c
    ensures FromConnector(ForConnector(o)) == o
  {
  }
}

# new-engine core, modelled in Dafny

This project models the core of *new-engine*, a small TypeScript engine for 2D canvas games. It covers:

- the `Vector2` value type, the `Mathf` helpers and the point-in-shape helpers;
- the collision checker: rectangles, circles, colliders attached to game objects, and the camera and scaling offsets applied to them;
- the camera, with its renderer offset and screen shake;
- the scaling manager, which maps the virtual resolution to the window;
- the game-objects manager: instantiation, destruction, the start queue and layer-ordered listing;
- the event manager: listening, dispatching and purging by game object;
- the engine core: starting the loops once, one frame of the game loop, and one pass of the collision loop;
- the mouse, keyboard and window listeners, in both the current and the legacy versions, with their hovered-object lists;
- the input state;
- the dependency container, the resource loader and the locale lookups;
- colours with their hex parsing and printing;
- the sprite animator;
- the tooltip text parser, line assembly and corner clamping.

Numbers are modelled as `real`. The browser enters only as parameters:

- canvas sizes, client rectangles, timestamps and `document.hidden`;
- a `sqrt` function constrained by `IsSqrt`;
- cosine and sine values;
- the random offsets of a shake;
- a reader for the regular expressions of the tooltip font tags.

Callbacks into game objects (`start`, `update`, `onCollision`, `onMouseClick`, `onMouseOver`, `onMouseOut` and the window callbacks) are recorded as a trace of `Call` values, in the order the engine makes them.

Several listeners remove entries from a list while iterating over it with an incrementing index. The object right after a removed one is therefore skipped. This happens in:

- the event manager's purge;
- the hovered-list removal;
- the legacy `destroyAll`.

`Splicing.SkipSplice` is the exact result of that idiom. The lemmas beside it say what survives.

## Model

| member | source | states |
|---|---|---|
| Vectors.Distance | src/Engine/Utilities/Vector2.ts:61-65 | the distance is never negative, and its square is the sum of the squared component differences |
| Vectors.ScalarIsBroadcast | src/Engine/Utilities/Vector2.ts:77-137 | passing a number to add, subtract, multiply or divide acts like passing that number in both components |
| Vectors.AddSubtractInverse | src/Engine/Utilities/Vector2.ts:77-101 | subtracting undoes adding and adding undoes subtracting; adding the negative of an operand is subtracting it |
| Vectors.MultiplyDivideInverse | src/Engine/Utilities/Vector2.ts:113-137 | dividing by a nonzero operand undoes multiplying by it |
| Vectors.DotSymmetric | src/Engine/Utilities/Vector2.ts:163-165 | the dot product does not depend on argument order |
| Vectors.DotSelf | src/Engine/Utilities/Vector2.ts:163-165 | a vector dotted with itself is x² + y², never negative |
| Vectors.LerpEndpoints | src/Engine/Utilities/Vector2.ts:192-194 | interpolation at fraction 0 gives the first vector and at fraction 1 the second |
| Vectors.DistancePositive | src/Engine/Utilities/Vector2.ts:61-65 | distinct vectors are a positive distance apart |
| Vectors.DistanceSymmetric | src/Engine/Utilities/Vector2.ts:61-65 | distance is symmetric, and every vector is at distance 0 from itself |
| Vectors.RotatePreservesLength | src/Engine/Utilities/Vector2.ts:209-216 | rotating by an angle whose cosine and sine satisfy cs² + sn² = 1 keeps the squared length |
| Vectors.RotateByZero | src/Engine/Utilities/Vector2.ts:209-216 | rotating by angle 0 changes nothing |
| Vectors.Vector2Object.constructor | src/Engine/Utilities/Vector2.ts:9-12 | the new vector holds the given x and y |
| Vectors.Vector2Object.Rotate | src/Engine/Utilities/Vector2.ts:199-204 | x and y are overwritten with the static rotation of the old value, and the method returns the same object |
| Mathf.LerpProperties | src/Helpers/Mathf.ts:5-7 | lerp starts at a, ends at b, stays at a when both ends are a, and gives the mean at fraction 0.5 |
| Mathf.VectorLerpIsComponentwise | src/Engine/Utilities/Vector2.ts:192-194 | vector lerp is scalar lerp applied to each component |
| Points.SquaredDistanceSymmetric | src/Helpers/CollisionChecker.ts:12-15 | the squared distance between point and centre is symmetric |
| Points.CornersInsideRectangle | src/Helpers/CollisionChecker.ts:5-7 | all four corners of a rectangle with non-negative size are inside it, because the edges count |
| Points.NegativeRectangleIsEmpty | src/Helpers/CollisionChecker.ts:5-7 | a rectangle with negative width or height contains no point |
| Points.CentreInsideCircle | src/Helpers/CollisionChecker.ts:12-15 | a circle's centre is inside it, whatever the radius |
| Points.CircleBoundary | src/Helpers/CollisionChecker.ts:12-15 | a point on the boundary is inside; a point any distance further out is not |
| Collisions.PointInsideRectangleCollision | src/Engine/Utilities/CollisionChecker.ts:29-34 | a result exists exactly when the point lies in the closed rectangle, and the result is the point itself |
| Collisions.PointInsideCircleCollision | src/Engine/Utilities/CollisionChecker.ts:39-45 | a result exists exactly when the point lies in the closed disc, and the result is the point itself |
| Collisions.RectangleRectangleCollision | src/Engine/Utilities/CollisionChecker.ts:50-73 | a result exists exactly when the closed intervals overlap on both axes; for non-negative sizes the point lies inside both rectangles |
| Collisions.RectangleRectangleCommonPoint | src/Engine/Utilities/CollisionChecker.ts:50-73 | any point common to both rectangles implies a collision |
| Collisions.RectangleRectangleSymmetric | src/Engine/Utilities/CollisionChecker.ts:50-73 | swapping the two rectangles gives the same result |
| Collisions.CentreDistance | src/Engine/Utilities/CollisionChecker.ts:79-81 | the centre distance is non-negative, its square is the squared centre distance, and it is positive for distinct centres |
| Collisions.CentreDirection | src/Engine/Utilities/CollisionChecker.ts:88-90 | the unit direction times the distance gives back the centre difference |
| Collisions.MidpointIsContact | src/Engine/Utilities/CollisionChecker.ts:93-97 | the midpoint of the two surface points equals the contact point: the centres' midpoint moved by half the radius difference along the direction |
| Collisions.CircleCircleCollision | src/Engine/Utilities/CollisionChecker.ts:78-98 | no result exactly when the radii sum is negative or its square is below the squared centre distance; otherwise the result is the contact point halfway between the two surface points |
| Collisions.CircleCircleEqualRadii | src/Engine/Utilities/CollisionChecker.ts:78-98 | two colliding circles of equal radius touch at the midpoint of their centres |
| Collisions.MirroredContact | src/Engine/Utilities/CollisionChecker.ts:93-97 | the contact point is unchanged when the circles are swapped and the direction negated |
| Collisions.CentreDirectionMirrored | src/Engine/Utilities/CollisionChecker.ts:88-90 | swapping the centres negates the direction |
| Collisions.CircleCircleSymmetricHit | src/Engine/Utilities/CollisionChecker.ts:78-98 | a collision one way round is a collision the other way round |
| Collisions.CircleCircleSymmetric | src/Engine/Utilities/CollisionChecker.ts:78-98 | swapping the two circles gives the same result |
| Collisions.RectangleCircleCollision | src/Engine/Utilities/CollisionChecker.ts:103-110 | a result exists exactly when the rectangle point nearest the centre lies strictly within the radius; that point is the result, and it lies inside the rectangle |
| Collisions.ClampIsNearest | src/Engine/Utilities/CollisionChecker.ts:103-110 | clamping gives the coordinate in range nearest to the input |
| Collisions.RectangleCircleCommonPoint | src/Engine/Utilities/CollisionChecker.ts:103-110 | a rectangle point strictly inside the circle implies a collision |
| Collisions.RectangleCircleTangentMisses | src/Engine/Utilities/CollisionChecker.ts:103-110 | a circle that only touches the rectangle does not collide, since the test is strict |
| Collisions.ShapeContactSymmetric | src/Engine/Utilities/CollisionChecker.ts:129-229 | the contact between two collider shapes is the same with the shapes swapped |
| Collisions.CheckCollisionBetweenGameObjects | src/Engine/Utilities/CollisionChecker.ts:115-233 | no result for two objects of the same name, a missing collider or an unknown collider kind; otherwise the collision names g1, exists exactly when the two screen shapes meet, and its point is the contact point shifted by the camera position |
| Collisions.CollisionSymmetric | src/Engine/Utilities/CollisionChecker.ts:115-233 | if g1 collides with g2 at a point, g2 collides with g1 at the same point |
| Collisions.PointInsideGameObject | src/Engine/Utilities/CollisionChecker.ts:238-281 | no result without a collider; otherwise a result exists exactly when the object's screen shape contains the point, and the result is the point plus the camera position |
| Cameras.OffsetForRenderer | src/Engine/Utilities/Camera.ts:20-25 | zero for an object the camera does not affect; the camera position otherwise |
| Cameras.LegacyOffsetForRenderer | src/Engine/Camera.ts:20-25 | zero for an object marked unaffected by the camera; otherwise the offset plus half the canvas is the camera position |
| Cameras.OffsetDependsOnlyOnFlag | src/Engine/Camera.ts:20-25 | both offsets depend on the object only through its camera flag |
| Cameras.LegacyCentredCameraHasNoOffset | src/Engine/Camera.ts:24 | a legacy camera at the canvas centre gives zero offset |
| Cameras.Camera.constructor | src/Engine/Utilities/Camera.ts:14-15 | the position and the saved shake position start at zero |
| Cameras.Camera.GetPositionOffsetForRenderer | src/Engine/Utilities/Camera.ts:20-25 | the renderer offset for the camera's current position |
| Cameras.Camera.Shake | src/Engine/Utilities/Camera.ts:30-58 | the position is restored at the end; no step is taken for a non-positive duration, and ceil(duration / 10) steps otherwise; step k moves to the start plus the k-th offset; the intensity falls to exactly zero when the duration is a multiple of 10 ms |
| Scaling.ScalingManager.constructor | src/Engine/Core/ScalingManager.ts:17-21 | the reference resolution is stored, and the scale times the reference resolution is the window size |
| Scaling.ScalingManager.UpdateScale | src/Engine/Core/ScalingManager.ts:27-33 | the current resolution is the window size, and the scale maps the reference resolution onto it per axis |
| Scaling.ScalingManager.GetScale | src/Engine/Core/ScalingManager.ts:38-40 | the stored scale factor |
| Scaling.ScalingManager.VirtualToScreen | src/Engine/Core/ScalingManager.ts:45-50 | a virtual position times the scale, per axis |
| Scaling.ScalingManager.ScreenToVirtual | src/Engine/Core/ScalingManager.ts:55-60 | the virtual position whose screen image is the given position |
| Scaling.ScalingManager.BoxSizeVirtualToScreen | src/Engine/Core/ScalingManager.ts:66-91 | the size is scaled uniformly by one of the two axis factors, so the aspect ratio is kept; for positive sizes that factor is the smaller one; a zero width takes the height factor, as the NaN comparison in the source does |
| Scaling.ScalingManager.CircleRadiusVirtualToScreen | src/Engine/Core/ScalingManager.ts:96-105 | the radius is scaled by the smaller axis factor |
| Scaling.ScreenVirtualRoundTrip | src/Engine/Core/ScalingManager.ts:45-60 | with a nonzero scale, screen-to-virtual and virtual-to-screen undo each other in both orders |
| Scaling.BoxAndCircleAgree | src/Engine/Core/ScalingManager.ts:66-105 | a positive box and a circle of the same extent are scaled by the same factor |
| WindowEvents.ResizeScale | src/Engine/Listeners/WindowListeners.ts:90-101 | the canvas scale is one of the two window-to-resolution ratios; for positive sizes it is the smaller one, so the canvas fits the window |
| WindowEvents.WindowCall | src/Engine/Listeners/WindowListeners.ts:31-64 | each window event becomes a callback on the given object |
| WindowEvents.ResizeCanvas | src/Engine/Listeners/WindowListeners.ts:90-101 | the canvas transform scale becomes the fitted scale, and the canvas size is unchanged |
| WindowEvents.InitializeCanvasResizing | src/Engine/Listeners/WindowListeners.ts:78-85 | the canvas takes the reference resolution as its size and the fitted scale as its transform |
| WindowEvents.Broadcast | src/Engine/Listeners/WindowListeners.ts:47-65 | focus and blur reach every object once, in list order |
| WindowEvents.OnResize | src/Engine/Listeners/WindowListeners.ts:31-39 | the canvas is rescaled, and every object gets `onWindowResized` once, in list order |
| GameObjects.FirstNamed | src/Engine/Managers/GameObjectsManager.ts:80-88 | the index of the first object with the name, or none exactly when no object has it |
| GameObjects.RemoveAt | src/Engine/Managers/GameObjectsManager.ts:39-57 | removing index k keeps the objects before k and shifts the later ones down by one |
| GameObjects.DestroyedNameIsGone | src/Engine/Managers/GameObjectsManager.ts:39-57 | with unique names, destroying an object leaves no object of that name |
| GameObjects.InsertByLayer | src/Engine/Managers/GameObjectsManager.ts:69-75 | inserting into a layer-sorted list keeps it sorted and adds exactly the new object |
| GameObjects.SortByLayer | src/Engine/Managers/GameObjectsManager.ts:69-75 | the result is sorted by descending rendering layer and is a permutation of the input |
| GameObjects.GameObjectsManager.constructor | src/Engine/Managers/GameObjectsManager.ts:18-20 | no objects and an empty start queue |
| GameObjects.GameObjectsManager.Instantiate | src/Engine/Managers/GameObjectsManager.ts:25-34 | the object is appended to the list and to the start queue and returned |
| GameObjects.GameObjectsManager.Destroy | src/Engine/Managers/GameObjectsManager.ts:39-57 | an unknown name changes nothing and returns none; otherwise the first object of that name is removed and returned, and its event listeners are purged |
| GameObjects.GameObjectsManager.DestroyAll | src/Engine/Managers/GameObjectsManager.ts:62-64 | the list is emptied, and the start queue is untouched |
| GameObjects.GameObjectsManager.LegacyDestroyAll | src/Engine/GameObjectsManager.ts:57-62 | the legacy loop leaves exactly the odd-indexed objects, because each removal skips the next object |
| GameObjects.LegacyDestroyAllLeavesSecond | src/Engine/GameObjectsManager.ts:57-62 | with two objects, the legacy loop leaves the second one |
| GameObjects.GameObjectsManager.GetAll | src/Engine/Managers/GameObjectsManager.ts:69-75 | the stored list is re-sorted in place by layer, as a permutation of itself, and returned |
| GameObjects.GameObjectsManager.GetByName | src/Engine/Managers/GameObjectsManager.ts:80-88 | the first object with the name, or none exactly when there is none |
| GameObjects.GameObjectsManager.CallStartMethodOfInstantiatedGameObjects | src/Engine/Managers/GameObjectsManager.ts:93-98 | `start` is called on each queued object in queue order, the queue is emptied, and the list is unchanged |
| Splicing.SkipSpliceKeepsNonMatching | src/Engine/Managers/EventManager.ts:15-24 | the loop never removes an entry that does not match |
| Splicing.SkipSpliceSubset | src/Engine/Managers/EventManager.ts:15-24 | everything left was in the input |
| Splicing.SkipSpliceNoMatch | src/Engine/Managers/EventManager.ts:15-24 | with no match, nothing changes |
| Splicing.SkipSpliceSingleMatch | src/Engine/Managers/EventManager.ts:15-24 | with exactly one match, exactly that entry is removed |
| Splicing.SkipSpliceSkipsNext | src/Engine/Managers/EventManager.ts:17-21 | when two matching entries are adjacent, the second one survives |
| Splicing.SkipSpliceAll | src/Engine/GameObjectsManager.ts:57-62 | when every entry matches, exactly the odd-indexed entries survive |
| Splicing.SpliceWhileIncrementing | src/Engine/Managers/EventManager.ts:17-21 | the splice-while-incrementing loop computes `SkipSplice` |
| Events.Purged | src/Engine/Managers/EventManager.ts:15-24 | the purge keeps every event name, and each event's list becomes the loop's result for that list |
| Events.PurgeKeepsOtherObjects | src/Engine/Managers/EventManager.ts:15-24 | the listeners of other objects are kept, in order |
| Events.PurgeLeavesSecondOfAdjacentPair | src/Engine/Managers/EventManager.ts:17-21 | of two adjacent listeners of the purged object, the second survives |
| Events.PurgeOfSingleListener | src/Engine/Managers/EventManager.ts:15-24 | an object with one listener on an event loses exactly that listener |
| Events.EventManager.constructor | src/Engine/Managers/EventManager.ts:10 | no event has listeners |
| Events.EventManager.ListenForEvent | src/Engine/Managers/EventManager.ts:29-44 | the listener is appended to its event's list, which is created if absent; all other events are unchanged |
| Events.EventManager.DispatchEvent | src/Engine/Managers/EventManager.ts:49-63 | an unknown event calls nothing; otherwise every listener's callback gets the data once, in registration order |
| Events.EventManager.RemoveEventListenerByGameObject | src/Engine/Managers/EventManager.ts:15-24 | the listener map becomes its purge for the object's name |
| Engine.HitsOnMembership | src/Engine/Core/Core.ts:196-206 | a callback is among the hits of one object exactly when some target reports it |
| Engine.PassMembershipByFirst | src/Engine/Core/Core.ts:196-206 | a callback is made by the pass exactly when it is among the hits of one of the outer loop's objects |
| Engine.PassMembership | src/Engine/Core/Core.ts:196-206 | a callback is made by the pass exactly when some ordered pair of objects reports it |
| Engine.PassCallsAreCollisions | src/Engine/Core/Core.ts:193-206 | every callback of the pass is an `onCollision` between two differently named objects of the list, both with colliders |
| Engine.PassIsSymmetric | src/Engine/Core/Core.ts:196-206 | if g2 is told it hit g1 at a point, g1 is told it hit g2 at the same point |
| Engine.CheckAgainstAll | src/Engine/Core/Core.ts:196-206 | the inner loop makes exactly the hits of one object against all targets |
| Engine.OrderedPairPass | src/Engine/Core/Core.ts:196-206 | the nested loops make exactly the pass callbacks over all ordered pairs |
| Engine.Core.constructor | src/Engine/Core/Core.ts:37-79 | the timestamps are zero, neither loop has started, the managers are new and empty, and the mouse listeners share the core's objects, input and camera with an empty hovered list |
| Engine.Core.Create | src/Engine/Core/Core.ts:55-60 | construction fails with the context exception exactly when the canvas has no 2D context |
| Engine.Core.OnSceneLoaded | src/Engine/Core/Core.ts:115-129 | both loops end up started, and each is started only if it was not already running |
| Engine.Core.GameLoopFrame | src/Engine/Core/Core.ts:134-177 | the delta time is the elapsed time in seconds; the object list ends sorted by layer and a permutation of itself; the trace is exactly `start` for every queued object in queue order, then, if the page is visible, `update` for every object in layer order, then the `onMouseOut` calls of the mouse-out pass, whose removals are applied to the hovered list |
| Engine.UpdateLoop | src/Engine/Core/Core.ts:150-160 | every object gets `update` once, in list order, or none does when the page is hidden |
| Engine.Core.FixedLoopPass | src/Engine/Core/Core.ts:182-213 | with collisions disabled nothing happens; otherwise the callbacks are the pass over the objects that have colliders |
| Hovering.FindListed | src/Engine/Listeners/MouseListeners.ts:162-169 | true exactly when an entry of the hovered list has the name |
| Hovering.SkipSpliceKeepsDistinctNames | src/Engine/Listeners/MouseListeners.ts:174-180 | removal keeps names unique in the hovered list |
| Hovering.RemoveByName | src/Engine/Listeners/MouseListeners.ts:174-180 | removal by name is the splice-while-incrementing loop with name equality |
| Hovering.RemoveByNameOfListed | src/Engine/Listeners/MouseListeners.ts:174-180 | with unique names, removal drops exactly the named entry and keeps the rest in order |
| Hovering.RemoveByNameOfUnlisted | src/Engine/Listeners/MouseListeners.ts:174-180 | removing a name that is not listed changes nothing |
| Hovering.OutCalls | src/Engine/Listeners/MouseListeners.ts:131-150 | one `onMouseOut` per removed entry, each on a listed object the cursor has left |
| Hovering.StillHoveredStaysListed | src/Engine/Listeners/MouseListeners.ts:136-149 | an object still under the cursor stays in the list |
| Hovering.MouseOutPass | src/Engine/Listeners/MouseListeners.ts:131-150 | the loop leaves `SkipSplice` of the list, with names still unique, and makes the `OutCalls` callbacks |
| Hovering.FirstWhere | src/Engine/Listeners.ts:201-231 | the first index satisfying the test, or none exactly when no entry does |
| Mouse.RegisteredHandlers | src/Engine/Listeners/MouseListeners.ts:22-34 | nothing is registered exactly for a mobile user; otherwise all five handlers are |
| Mouse.ClickCalls | src/Engine/Listeners/MouseListeners.ts:39-57 | every object under the cursor gets `onMouseClick` with its hit point, and only such objects do |
| Mouse.HoverPass | src/Engine/Listeners/MouseListeners.ts:100-126 | the hovered list only grows, by objects under the cursor that each get `onMouseOver`, and its names stay unique |
| Mouse.HoverLoop | src/Engine/Listeners/MouseListeners.ts:107-124 | the loop computes the hover pass: the list grows by exactly the newcomers, in order, and every object under the cursor ends up listed |
| Mouse.HoverPassAppendsNewcomers | src/Engine/Listeners/MouseListeners.ts:107-124 | the pass appends exactly the objects under the cursor whose name is neither listed nor taken by an earlier hit, in object order; afterwards a name is listed exactly when it was listed before or some object of that name is under the cursor |
| Mouse.HoverPassListsEveryHit | src/Engine/Listeners/MouseListeners.ts:107-124 | every object under the cursor has its name in the hovered list after the pass |
| Mouse.HoverPassSnoc | src/Engine/Listeners/MouseListeners.ts:107-124 | one more object at the end of the list is looked at last: it is appended exactly when it is under the cursor and its name is not listed yet |
| Mouse.CanvasCursorCorners | src/Engine/Listeners/MouseListeners.ts:82-95 | the client rectangle's corners map to the canvas corners |
| Mouse.MouseListeners.constructor | src/Engine/Listeners/MouseListeners.ts:10-17 | the hovered list starts empty |
| Mouse.MouseListeners.OnClick | src/Engine/Listeners/MouseListeners.ts:39-57 | the click callbacks over the layer-sorted objects at the current cursor |
| Mouse.MouseListeners.OnMouseDown | src/Engine/Listeners/MouseListeners.ts:62-67 | the button reads as pressed; nothing else in the input changes |
| Mouse.MouseListeners.OnMouseUp | src/Engine/Listeners/MouseListeners.ts:72-77 | the button reads as released; nothing else in the input changes |
| Mouse.MouseListeners.OnMouseMoveToInjectPosition | src/Engine/Listeners/MouseListeners.ts:82-95 | the mouse position becomes the client point mapped into canvas coordinates; the buttons are unchanged |
| Mouse.MouseListeners.CheckIfGameObjectAlreadyHovered | src/Engine/Listeners/MouseListeners.ts:162-169 | true exactly when the name is in the hovered list |
| Mouse.MouseListeners.OnMouseMoveToCheckOver | src/Engine/Listeners/MouseListeners.ts:100-126 | the hovered list and the callbacks are those of the hover pass at the current cursor; the list grows by exactly the newcomers, and every game object under the cursor is hovered afterwards |
| Mouse.MouseListeners.RemoveGameObjectFromAlreadyHoveredList | src/Engine/Listeners/MouseListeners.ts:174-180 | the hovered list loses that name by the splice-while-incrementing loop |
| Mouse.MouseListeners.CallMouseOutEventOnAllNotHoveredGameObjects | src/Engine/Listeners/MouseListeners.ts:131-150 | the mouse-out pass for objects no longer under the cursor |
| LegacyListeners.Anchor | src/Engine/Listeners.ts:201-231 | without camera influence, or with a centred camera, the anchor is the object position plus the collider offset |
| LegacyListeners.AnchorIsHit | src/Engine/Listeners.ts:201-231 | the anchor point of a known collider with non-negative size counts as a hit |
| LegacyListeners.RectangleAnchorIsTopLeft | src/Engine/Listeners.ts:201-231 | for a rectangle the anchor is the top-left corner: the opposite corner is a hit, and points just outside the sides are not |
| LegacyListeners.StillHitStaysListed | src/Engine/Listeners.ts:49-73 | an object still under the cursor stays in the hovered list |
| LegacyListeners.UnknownColliderStaysListed | src/Engine/Listeners.ts:49-73 | an object without a known collider is never removed from the hovered list |
| LegacyListeners.DebugToggle | src/Engine/Listeners.ts:288-305 | outside production, Digit1 flips FPS rendering and Digit2 flips collider rendering; other keys, or production, change nothing |
| LegacyListeners.DebugToggleTwice | src/Engine/Listeners.ts:288-305 | pressing the same key twice restores the flags |
| LegacyListeners.LegacyRenderer.constructor | src/Engine/Renderer.ts:16-19 | both debug flags start off |
| LegacyListeners.Listeners.constructor | src/Engine/Listeners.ts:26-33 | the hovered list starts empty, and the collaborators are stored |
| LegacyListeners.Listeners.CallMouseOutEventOnAllNeededGameObjects | src/Engine/Listeners.ts:49-73 | the mouse-out pass for objects the legacy hit test no longer reports |
| LegacyListeners.Listeners.OnMouseDown | src/Engine/Listeners.ts:80-82 | the button is stored as pressed |
| LegacyListeners.Listeners.OnMouseUp | src/Engine/Listeners.ts:85-87 | the button is stored as released |
| LegacyListeners.Listeners.OnMouseMove | src/Engine/Listeners.ts:90-98 | the mouse position becomes the client point relative to the canvas rectangle |
| LegacyListeners.FirstClick | src/Engine/Listeners.ts:201-231 | only the first object hit, if any, gets `onMouseClick` |
| LegacyListeners.Listeners.CallOnMouseClickMethodOnGameObjects | src/Engine/Listeners.ts:201-231 | the first object hit in the layer-sorted list, and only that one, gets `onMouseClick` |
| LegacyListeners.Listeners.OnClick | src/Engine/Listeners.ts:101-112 | nothing for a mobile user; otherwise the click at the current mouse position |
| LegacyListeners.Listeners.OnTouchEnd | src/Engine/Listeners.ts:115-124 | the click at the touch point relative to the canvas rectangle |
| LegacyListeners.FirstNewlyHovered | src/Engine/Listeners.ts:137-171 | the first object hit that is not already hovered, if any |
| LegacyListeners.Listeners.OnMouseMoveToCheckOver | src/Engine/Listeners.ts:127-172 | nothing for a mobile user; otherwise only the first newly hovered object gets `onMouseOver` and is appended to the hovered list |
| LegacyListeners.Listeners.CheckIfGameObjectAlreadyHovered | src/Engine/Listeners.ts:178-185 | true exactly when the name is in the hovered list |
| LegacyListeners.Listeners.RemoveGameObjectFromAlreadyHoveredList | src/Engine/Listeners.ts:190-196 | the hovered list loses that name by the splice-while-incrementing loop |
| LegacyListeners.Listeners.OnKeyDown | src/Engine/Listeners.ts:238-240 | the key is stored as pressed |
| LegacyListeners.Listeners.OnKeyUp | src/Engine/Listeners.ts:243-245 | the key is stored as released |
| LegacyListeners.Listeners.OnResize | src/Engine/Listeners.ts:253-261 | the canvas takes the window size, and every object gets `onWindowResized` in layer order |
| LegacyListeners.Listeners.OnFocus | src/Engine/Listeners.ts:269-274 | every object gets `onWindowFocusGain` in layer order |
| LegacyListeners.Listeners.OnBlur | src/Engine/Listeners.ts:277-282 | every object gets `onWindowFocusLoose` in layer order |
| LegacyListeners.Listeners.OnDebugKeyDown | src/Engine/Listeners.ts:288-305 | the renderer's debug flags are toggled by the key |
| Input.NeverStoredIsUp | src/Engine/Input.ts:21-26 | a button or key never stored reads as not pressed |
| Input.StoredStateIsReported | src/Engine/Input.ts:21-36 | the last stored state of a code is what is read back, and storing one code leaves the others alone |
| Input.InputState.constructor | src/Engine/Input.ts:7-9 | the position is zero and no button or key is stored |
| Input.InputState.GetMousePosition | src/Engine/Input.ts:14-16 | the stored mouse position |
| Input.InputState.GetMouseButtonDown | src/Engine/Input.ts:21-26 | pressed exactly when the button's stored state is pressed |
| Input.InputState.GetKeyboardButtonDown | src/Engine/Input.ts:31-36 | pressed exactly when the key's stored state is pressed |
| Input.InputState.SetMouseButton | src/Engine/Listeners/MouseListeners.ts:62-67 | the button's state is stored and read back; the keys and position are unchanged |
| Input.InputState.SetKeyboardButton | src/Engine/Listeners/KeyboardListeners.ts:26-39 | the key's state is stored and read back; the buttons and position are unchanged |
| Locales.Translate | src/Engine/Utilities/Locale.ts:31-45 | the translation for the language when it exists; otherwise the fallback `locale.key` |
| Locales.TranslateNeverEmpty | src/Engine/Locale.ts:34-36 | a translation lookup never returns the empty string, and a missing one starts with the locale name |
| Locales.Locale.constructor | src/Engine/Utilities/Locale.ts:16-19 | the loader and the language are stored |
| Locales.Locale.SetLanguage | src/Engine/Utilities/Locale.ts:24-26 | the selected language becomes the given one |
| Locales.Locale.Get | src/Engine/Utilities/Locale.ts:31-45 | the loader's error when the locale cannot be looked up; otherwise the translation or its fallback |
| Locales.GetFindsTranslation | src/Engine/Locale.ts:26-40 | a loaded locale, with no earlier entry of the same name, yields its stored translation |
| Resources.AfterLastSlash | src/Engine/Core/ResourceLoader.ts:38 | the last path segment contains no slash and is no longer than the URL |
| Resources.AfterLastSlashIsSuffix | src/Engine/Core/ResourceLoader.ts:38 | that segment is a suffix of the URL, and it is either the whole URL or preceded by a slash |
| Resources.BeforeFirstDot | src/Engine/Core/ResourceLoader.ts:38 | the part before the first dot is a prefix without a dot, and it is either the whole string or followed by a dot |
| Resources.DeriveName | src/Engine/ResourceLoader.ts:28 | a resource name derived from a URL contains neither slash nor dot |
| Resources.Find | src/Engine/Core/ResourceLoader.ts:86-102 | a found index holds the first resource of that name, and everything up to it is loaded; failure is either not-loaded or not-found |
| Resources.FindNotLoaded | src/Engine/Core/ResourceLoader.ts:88-92 | lookup fails as not loaded exactly when an unloaded resource comes before any resource of that name |
| Resources.FindNotFound | src/Engine/Core/ResourceLoader.ts:100-101 | lookup fails as not found exactly when everything is loaded and nothing has that name |
| Resources.FindAfterAppend | src/Engine/ResourceLoader.ts:76-92 | queueing more resources does not change a lookup that already succeeds or already stops at an unloaded resource |
| Resources.FindFirstLoaded | src/Engine/Core/ResourceLoader.ts:128-144 | a loaded resource with no earlier namesake, behind only loaded ones, is found at its index |
| Resources.Pending | src/Engine/Core/ResourceLoader.ts:154-197 | the resources still to load are exactly the unloaded ones |
| Resources.MarkLoaded | src/Engine/Core/ResourceLoader.ts:265-283 | only the given resource changes; it becomes loaded and keeps its name and URL |
| Resources.MarkLoadedShrinksPending | src/Engine/Core/ResourceLoader.ts:209-283 | finishing an unloaded resource removes exactly one pending resource |
| Resources.CollectPending | src/Engine/ResourceLoader.ts:143-181 | the loop collects exactly the pending resources |
| Resources.ResourceLoader.constructor | src/Engine/Core/ResourceLoader.ts:17-30 | all queues are empty and both counters are zero |
| Resources.ResourceLoader.AddToQueue | src/Engine/Core/ResourceLoader.ts:35-81 | an unloaded resource named after the URL is appended to its kind's queue; the other queues are unchanged |
| Resources.ResourceLoader.GetByName | src/Engine/Core/ResourceLoader.ts:86-144 | the lookup in the kind's queue, for the image, sound and locale getters (the source has no font getter, so a `Font` lookup has no counterpart there) |
| Resources.ResourceLoader.LoadAllResources | src/Engine/Core/ResourceLoader.ts:149-200 | the total counts every queued resource; loads are started for the pending ones, kind by kind |
| Resources.ResourceLoader.FinishLoad | src/Engine/Core/ResourceLoader.ts:265-283 | the resource is marked loaded, and the loaded counter goes up by one |
| IOC.Resolve | src/Engine/IOC.ts:20-31 | fails with the name exactly when no entry of that name has an instance |
| IOC.ResolveFirst | src/Engine/IOC.ts:23-27 | a resolved instance comes from the first entry of that name that has one |
| IOC.RegisterKeepsEarlier | src/Engine/IOC.ts:10-15 | registering again does not change a name that already resolves |
| IOC.Container.constructor | src/Engine/IOC.ts:5 | no registrations |
| IOC.Container.RegisterSingleton | src/Engine/IOC.ts:10-15 | the entry is appended |
| IOC.Container.MakeSingleton | src/Engine/IOC.ts:20-31 | the resolution of the name in the registrations |
| Colors.HexDigits | src/Engine/Color.ts:93-96 | lower-case hex digits, at least one; exactly one below 16, at most two below 256 |
| Colors.HexValueOfDigits | src/Engine/Color.ts:93-96 | reading the printed digits back gives the number |
| Colors.HexPrefix | src/Engine/Color.ts:82-84 | the longest prefix of hex digits |
| Colors.ParseHex | src/Engine/Color.ts:82-84 | the result is NaN exactly when no hex digit follows the optional sign and prefix |
| Colors.ParseHexOfDigits | src/Engine/Color.ts:82-84 | a plain run of hex digits parses to its value |
| Colors.Substring | src/Engine/Color.ts:82-84 | within bounds, the substring is the slice |
| Colors.RemoveFirstHash | src/Engine/Color.ts:81 | a string without '#' is unchanged, and a leading '#' is removed |
| Colors.HexToRgb | src/Engine/Color.ts:80-87 | a colour parsed from hex is fully opaque |
| Colors.HexToRgbOfFields | src/Engine/Color.ts:80-87 | each pair of characters after '#' is parsed into its channel |
| Colors.Pad | src/Engine/Color.ts:98-105 | a single digit gets a leading zero; longer strings are unchanged |
| Colors.PaddedByte | src/Engine/Color.ts:92-108 | a byte prints as two lower-case hex digits that parse back to it |
| Colors.RgbaToHexShape | src/Engine/Color.ts:92-108 | byte channels print as '#' followed by six hex digits |
| Colors.HexRoundTrip | src/Engine/Color.ts:80-108 | printing byte channels and parsing back gives the channels, with the alpha set to 1 |
| Colors.PairWrittenBack | src/Engine/Color.ts:92-108 | a two-digit lower-case pair parses and prints back to itself |
| Colors.RgbRoundTrip | src/Engine/Color.ts:80-108 | parsing a lower-case `#rrggbb` and printing it gives the same string followed by `ff` |
| Colors.OpaqueAlphaHex | src/Engine/Color.ts:96 | full opacity prints as `ff` |
| Colors.ClampAlpha | src/Engine/Color.ts:46-58 | alpha is clamped to [0, 1]; values inside are kept |
| Colors.ClampAlphaIdempotent | src/Engine/Color.ts:46-58 | clamping twice is clamping once |
| Colors.Color.constructor | src/Engine/Color.ts:11-16 | the channels and alpha are stored, defaulting to opaque white |
| Colors.Color.SetA | src/Engine/Color.ts:46-58 | alpha becomes the clamped value; the colour channels are unchanged |
| Colors.Color.SetHex | src/Engine/Color.ts:21-27 | the colour becomes the parsed hex, fully opaque |
| Colors.Color.GetHex | src/Engine/Color.ts:32-34 | the hex printing of the current colour |
| Colors.Color.SetRgba | src/Engine/Color.ts:70-75 | the channels are copied from the other colour, and its alpha is clamped |
| Animation.Step | src/Engine/Animator.ts:81-103 | nothing changes unless an animation is playing and its frame time has passed; then the clock restarts and the frame advances, and at the last frame it wraps for loop mode and stays put for once mode |
| Animation.StepKeepsFrameInRange | src/Engine/Animator.ts:93-101 | the frame index stays within the animation |
| Animation.LoopSteps | src/Engine/Animator.ts:88-101 | n due steps of a looping animation advance the frame by n modulo its length |
| Animation.OnceSteps | src/Engine/Animator.ts:88-101 | n due steps of a once animation advance the frame by n, stopping at the last frame |
| Animation.LoopReturnsToStart | src/Engine/Animator.ts:99-101 | a looping animation returns to frame 0 after as many steps as it has frames |
| Animation.Animator.constructor | src/Engine/Animator.ts:7-14 | no frames and nothing playing |
| Animation.Animator.AddFrame | src/Engine/Animator.ts:19-24 | the sprite is appended to the animation's frame list, which is created if absent |
| Animation.Animator.Play | src/Engine/Animator.ts:29-46 | the named animation starts at frame 0 at the given time, in once or loop mode |
| Animation.Animator.IncrementFrameNumber | src/Engine/Animator.ts:81-103 | the playback takes one `Step` |
| Animation.Animator.GetSpriteForDrawing | src/Engine/Animator.ts:62-76 | nothing while stopped; otherwise the current frame's sprite, after which the playback steps |
| Tooltips.SplitLines | src/Entities/Composite/Tooltip/Tooltip.ts:209 | the lines joined with line breaks give back the text, and no line contains a break |
| Tooltips.UnbrokenTextIsOneLine | src/Entities/Composite/Tooltip/Tooltip.ts:209 | text without a break is one line |
| Tooltips.TextParts | src/Entities/Composite/Tooltip/Tooltip.ts:230-277 | the empty text has no parts |
| Tooltips.ScanReassembles | src/Entities/Composite/Tooltip/Tooltip.ts:239-273 | at every point of the scan, the parts so far plus the pending text are the text read so far |
| Tooltips.TagPendingStartsWithOpener | src/Entities/Composite/Tooltip/Tooltip.ts:250-255 | inside a tag, the pending text starts with '<' |
| Tooltips.ParseReassembles | src/Entities/Composite/Tooltip/Tooltip.ts:239-273 | the parts concatenate to the text, except that a '<' opened as the last character is dropped |
| Tooltips.ClosedTagPart | src/Entities/Composite/Tooltip/Tooltip.ts:258-264 | closing a tag emits a part that starts with '<', ends with `t>`, and is the text read just before |
| Tooltips.BareFontTagIsItsOwnPart | src/Entities/Composite/Tooltip/Tooltip.ts:230-277 | for any plain text before and after it, an opening tag without attributes closes at its own '>' and becomes a part of its own, between the text before it and the text after it (the latter only when non-empty) |
| Tooltips.PlainLineIsOnePart | src/Entities/Composite/Tooltip/Tooltip.ts:267-272 | text without '<' is a single part |
| Tooltips.ParseStringIntoTextParts | src/Entities/Composite/Tooltip/Tooltip.ts:230-277 | the character loop computes `TextParts` |
| Tooltips.FontTagNeedsOpener | src/Entities/Composite/Tooltip/Tooltip.ts:289 | text without '<' has no font tag |
| Tooltips.NonEmptyCapture | src/Entities/Composite/Tooltip/Tooltip.ts:293 | an attribute counts only when it is captured and not empty |
| Tooltips.ConvertPart | src/Entities/Composite/Tooltip/Tooltip.ts:287-313 | plain text keeps the default size and colour; a font tag fails exactly when its body is missing, and otherwise takes its body and, when present, its size read as a number and its colour |
| Tooltips.ConvertAll | src/Entities/Composite/Tooltip/Tooltip.ts:282-318 | succeeds exactly when every part converts, with the parts converted one to one; otherwise it fails on the first part that does not convert |
| Tooltips.PlainLineKeepsDefaults | src/Entities/Composite/Tooltip/Tooltip.ts:313 | a plain line becomes one part with the default size and colour |
| Tooltips.ConvertTextPartsToSpecialFormat | src/Entities/Composite/Tooltip/Tooltip.ts:282-318 | the loop computes `ConvertAll` |
| Tooltips.FirstFailureIsUnique | src/Entities/Composite/Tooltip/Tooltip.ts:305 | the failure reported is the first part that does not convert |
| Tooltips.AssembleAll | src/Entities/Composite/Tooltip/Tooltip.ts:204-225 | succeeds exactly when every line converts, giving one converted line per text line |
| Tooltips.AssembleTooltipLines | src/Entities/Composite/Tooltip/Tooltip.ts:204-225 | the loop over the split lines computes `AssembleAll` |
| Tooltips.UnbrokenTextAssemblesOneLine | src/Entities/Composite/Tooltip/Tooltip.ts:209-221 | text without a break assembles into one line |
| Tooltips.OffsetWhenNearCorners | src/Entities/Composite/Tooltip/Tooltip.ts:116-141 | a box past the left, right, bottom or top edge is moved back to touch that edge; a box already inside keeps its position on that axis |
| Tooltips.SmallBoxEndsOnCanvas | src/Entities/Composite/Tooltip/Tooltip.ts:118-140 | a box no larger than the canvas ends up entirely on it |

## Left out

- Floating point is modelled as exact reals. NaN, Infinity and rounding are not represented.
- `Scaling.ScalingManager.BoxSizeVirtualToScreen`: requires a nonzero height. In the source a zero height makes the aspect ratio infinite and the returned width NaN.
- `Collisions.CircleCircleCollision`: concentric circles whose radii sum to a non-negative number divide by zero in the source. The model excludes that input, because the source yields NaN there.
- `Vectors.RotateBy`: the cosine and sine are parameters, so the trigonometric value of the angle is not modelled.
- `angle`, `angleBetween`, `fromAngles`, `normalize` and `randomDirection` of `Vector2` are not modelled. They need trigonometry, randomness or a square root of a zero-length vector.
- `Cameras.Camera.Shake`: the random offsets are a parameter, and the 10 ms sleeps are left out. Its step count, trace and final intensity are ghost results, so only the restored position is a run-time promise.
- `Animator.playSingleRandomFrame` is not modelled, since it depends on randomness.
- Asynchronous loading is reduced to the state changes on completion: the promises, `fetch`, image and font decoding, and audio decoding. `FinishLoad` is the completion step.
- `Time.toFixed` and the FPS averaging are not modelled. They are display-only floating-point formatting.
- The tooltip font-tag regular expressions and `Number()` are given as a `FontTagReader` parameter. `Number()` can yield NaN, which reals do not represent.
- Tooltip `setText`, `setPosition`, `createBackground`, `destroy` and text measurement are not modelled. They create canvas entities and measure text with the browser.
- src/Engine/Core/Listeners.ts, the listeners class src/Engine/Core/Core.ts:76 constructs, is not part of this model. The method it calls at the end of a frame (src/Engine/Core/Core.ts:170) is named like the mouse-out pass of src/Engine/Listeners/MouseListeners.ts:131-150, so the frame runs that pass.
- The 4-argument scaled `checkCollisionBetweenGameObjects` called at src/Engine/Core/Core.ts:199 is not part of this model. The 2-argument version in src/Engine/Utilities/CollisionChecker.ts is modelled, and the fixed loop uses it.
- The rescheduling of both loops by `requestAnimationFrame` and `setTimeout` is not modelled. One frame and one fixed pass are modelled.
- The renderer's drawing queue and all painting are not modelled.
- The older src/Engine/Core.ts is not modelled. Neither are TouchListeners.ts, DebugListeners.ts or SoundManager.ts, which are browser wiring.
- The legacy `Listeners.register` wiring is not modelled. In the touch handler, the choice between `touches[0]` and `changedTouches[0]` is not modelled; the touch point is a parameter.
- `GameObjects.GameObjectsManager.GetAll`: specified as some layer-sorted permutation rather than a particular one. The comparator leaves objects on the same layer unordered, and the browser's sort is not modelled.
- What a game object's callbacks themselves do (creating or destroying objects mid-loop) is not modelled. Callbacks are recorded, not executed.
- The static `IOC` array is modelled as a `Container` object.
- `Animation.Animator.IncrementFrameNumber`: requires a playing animation's name to have frames. The source throws a TypeError in that case.
- `Animation.Animator.GetSpriteForDrawing`: requires a playing animation's name to have frames, as `IncrementFrameNumber` does. In that case the source reads an undefined entry at src/Engine/Animator.ts:69 and throws a TypeError.
- `Colors.ParseHex`: the leading white space that `parseInt` skips is not modelled.
- `Colors.RgbaToHexShape`: channels are whole numbers; fractional channels printed by `toString(16)` are not modelled.
- `WindowEvents.Broadcast`: the current window listeners fetch the objects through `getAll`. Here they are a parameter, so the layer sort is outside this member.
